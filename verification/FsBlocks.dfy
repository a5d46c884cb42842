/** Block allocation and the block map of inodes (kernel/fs.c): bitmap, balloc, bfree, bmap, itrunc. The disk is
    the one that bread shows above the log and the buffer cache. */
module FsBlocks {
  import opened FsCodec

  const NDIRECT: nat := 12
  const MAXFILE: nat := NDIRECT + NINDIRECT

  type Addrs = s: seq<nat> | |s| == NDIRECT + 1 witness seq(NDIRECT + 1, _ => 0)

  datatype Inode = Inode(addrs: Addrs, size: nat)

  /** What the code uses of the superblock; the data blocks are those from datastart on. */
  datatype Super = Super(size: nat, bmapstart: nat, datastart: nat)

  /** `logged` collects the blocks given to log_write. */
  datatype Fs = Fs(disk: seq<Block>, inodes: map<nat, Inode>, logged: set<nat>)

  predicate SbOk(sb: Super) {
    0 < sb.bmapstart && sb.bmapstart + sb.size / BPB + 1 <= sb.datastart <= sb.size < 0x8000_0000
  }

  // ---------------------------------------------------------------- bitmap

  function BitmapBlock(sb: Super, b: nat): nat { b / BPB + sb.bmapstart }

  lemma BitmapBelow(sb: Super, b: nat)
    requires SbOk(sb) && b < sb.size
    ensures 0 < BitmapBlock(sb, b) < sb.datastart
  {
  }

  predicate Sized(sb: Super, disk: seq<Block>) { SbOk(sb) && |disk| == sb.size }

  predicate Marked(sb: Super, disk: seq<Block>, b: nat)
    requires Sized(sb, disk) && b < sb.size
  {
    BitmapBelow(sb, b);
    Bit(disk[BitmapBlock(sb, b)], b % BPB)
  }

  function Mark(sb: Super, disk: seq<Block>, b: nat, on: bool): (r: seq<Block>)
    requires Sized(sb, disk) && b < sb.size
    ensures |r| == |disk|
  {
    BitmapBelow(sb, b);
    disk[BitmapBlock(sb, b) := SetBit(disk[BitmapBlock(sb, b)], b % BPB, on)]
  }

  lemma MarkAt(sb: Super, disk: seq<Block>, b: nat, on: bool, c: nat)
    requires Sized(sb, disk) && b < sb.size && c < sb.size
    ensures Marked(sb, Mark(sb, disk, b, on), c) == if c == b then on else Marked(sb, disk, c)
  {
    BitmapBelow(sb, b);
    BitmapBelow(sb, c);
    assert c / BPB == b / BPB && c % BPB == b % BPB ==> c == b;
  }

  lemma MarkedAway(sb: Super, disk: seq<Block>, b: nat, x: Block, c: nat)
    requires Sized(sb, disk) && sb.datastart <= b < sb.size && c < sb.size
    ensures Marked(sb, disk[b := x], c) == Marked(sb, disk, c)
  {
    BitmapBelow(sb, c);
  }

  // ---------------------------------------------------------------- who owns what

  /** A place that can hold a block number. */
  datatype Ref = Direct(ino: nat, i: nat) | Ind(ino: nat) | Indirect(ino: nat, j: nat)

  /** The block number held at r, 0 when there is none. */
  function Target(fs: Fs, r: Ref): nat {
    if r.ino !in fs.inodes then 0 else
    match r
    case Direct(n, i) => if i < NDIRECT then fs.inodes[n].addrs[i] else 0
    case Ind(n) => fs.inodes[n].addrs[NDIRECT]
    case Indirect(n, j) =>
      var a := fs.inodes[n].addrs[NDIRECT];
      if a == 0 || a >= |fs.disk| || j >= NINDIRECT then 0 else Word(fs.disk[a], j)
  }

  /** Indirect references of inode n below j, which itrunc has freed but not erased. */
  predicate Gone(r: Ref, n: int, j: int) { r.Indirect? && r.ino == n && r.j < j }

  ghost predicate RefOk(fs: Fs, own: map<nat, Ref>, r: Ref) {
    Target(fs, r) != 0 ==> Target(fs, r) in own && own[Target(fs, r)] == r
  }

  ghost predicate BlockOk(sb: Super, fs: Fs, own: map<nat, Ref>, b: nat) {
    b in own ==> sb.datastart <= b < sb.size && Target(fs, own[b]) == b
  }

  ghost predicate MarkOk(sb: Super, fs: Fs, own: map<nat, Ref>, spare: int, b: nat)
    requires Sized(sb, fs.disk) && b < sb.size
  {
    Marked(sb, fs.disk, b) <==> b < sb.datastart || b in own || b == spare
  }

  /** References and owned blocks are in bijection, and the bitmap marks the metadata blocks, the owned blocks
      and at most one spare block that balloc has just taken. */
  ghost predicate OwnOk(sb: Super, fs: Fs, own: map<nat, Ref>, spare: int, n: int, j: int) {
    && Sized(sb, fs.disk)
    && (forall r: Ref :: !Gone(r, n, j) ==> RefOk(fs, own, r))
    && (forall b: nat :: BlockOk(sb, fs, own, b))
    && (forall b: nat :: b < sb.size ==> MarkOk(sb, fs, own, spare, b))
    && (spare != -1 ==> sb.datastart <= spare < sb.size && spare !in own)
    && (forall b: nat :: b in own ==> !Gone(own[b], n, j))
  }

  ghost predicate FsOk(sb: Super, fs: Fs, own: map<nat, Ref>) { OwnOk(sb, fs, own, -1, -1, 0) }

  // ---------------------------------------------------------------- allocation

  /** The effect of balloc taking block b: marked, zeroed, both blocks logged. */
  function Allocated(sb: Super, fs: Fs, b: nat): Fs
    requires Sized(sb, fs.disk) && b < sb.size
  {
    Fs(Mark(sb, fs.disk, b, true)[b := Zeros()], fs.inodes, fs.logged + {BitmapBlock(sb, b), b})
  }

  lemma AllocTargets(sb: Super, fs: Fs, own: map<nat, Ref>, b: nat, r: Ref)
    requires FsOk(sb, fs, own) && b < sb.size && !Marked(sb, fs.disk, b)
    ensures sb.datastart <= b && b !in own && Target(Allocated(sb, fs, b), r) == Target(fs, r)
    ensures forall c: nat :: sb.datastart <= c < sb.size && c != b ==> Allocated(sb, fs, b).disk[c] == fs.disk[c]
  {
    assert MarkOk(sb, fs, own, -1, b);
    BitmapBelow(sb, b);
    assert RefOk(fs, own, Ind(r.ino));
    if Target(fs, Ind(r.ino)) != 0 { assert BlockOk(sb, fs, own, Target(fs, Ind(r.ino))); }
  }

  lemma AllocKeeps(sb: Super, fs: Fs, own: map<nat, Ref>, b: nat)
    requires FsOk(sb, fs, own) && b < sb.size && !Marked(sb, fs.disk, b)
    ensures OwnOk(sb, Allocated(sb, fs, b), own, b, -1, 0)
  {
    var u := Allocated(sb, fs, b);
    forall r: Ref | !Gone(r, -1, 0) ensures RefOk(u, own, r) {
      AllocTargets(sb, fs, own, b, r);
      assert RefOk(fs, own, r);
    }
    forall c: nat ensures BlockOk(sb, u, own, c) {
      assert BlockOk(sb, fs, own, c);
      if c in own { AllocTargets(sb, fs, own, b, own[c]); }
    }
    AllocTargets(sb, fs, own, b, Ind(0));
    forall c: nat | c < sb.size ensures MarkOk(sb, u, own, b, c) {
      assert MarkOk(sb, fs, own, -1, c);
      MarkAt(sb, fs.disk, b, true, c);
      MarkedAway(sb, Mark(sb, fs.disk, b, true), b, Zeros(), c);
    }
  }

  // ---------------------------------------------------------------- linking

  predicate CanHold(fs: Fs, r: Ref) {
    && r.ino in fs.inodes
    && match r
       case Direct(_, i) => i < NDIRECT
       case Ind(_) => true
       case Indirect(n, j) => j < NINDIRECT && 0 < fs.inodes[n].addrs[NDIRECT] < |fs.disk|
  }

  /** Storing block number b at r. */
  function Linked(fs: Fs, r: Ref, b: nat): Fs
    requires CanHold(fs, r) && b < WORD
  {
    var ip := fs.inodes[r.ino];
    match r
    case Direct(n, i) => fs.(inodes := fs.inodes[n := ip.(addrs := ip.addrs[i := b])])
    case Ind(n) => fs.(inodes := fs.inodes[n := ip.(addrs := ip.addrs[NDIRECT := b])])
    case Indirect(_, j) =>
      var a := ip.addrs[NDIRECT];
      fs.(disk := fs.disk[a := SetWord(fs.disk[a], j, b)], logged := fs.logged + {a})
  }

  /** Storing a spare, zeroed block changes the target of r and of nothing else: zeroing is what makes a reused
      indirect block come up empty. */
  lemma LinkTargets(sb: Super, fs: Fs, own: map<nat, Ref>, r: Ref, b: nat, q: Ref)
    requires OwnOk(sb, fs, own, b, -1, 0) && CanHold(fs, r) && Target(fs, r) == 0 && fs.disk[b] == Zeros()
    ensures Target(Linked(fs, r, b), q) == if q == r then b else Target(fs, q)
  {
    if q.Indirect? && q.j < NINDIRECT { ZeroWords(q.j); }
    if q.Indirect? && r.Indirect? {
      assert RefOk(fs, own, Ind(q.ino)) && RefOk(fs, own, Ind(r.ino));
    }
  }

  lemma LinkKeeps(sb: Super, fs: Fs, own: map<nat, Ref>, r: Ref, b: nat)
    requires OwnOk(sb, fs, own, b, -1, 0) && CanHold(fs, r) && Target(fs, r) == 0 && fs.disk[b] == Zeros()
    ensures FsOk(sb, Linked(fs, r, b), own[b := r])
  {
    var u, o := Linked(fs, r, b), own[b := r];
    forall q: Ref | !Gone(q, -1, 0) ensures RefOk(u, o, q) {
      LinkTargets(sb, fs, own, r, b, q);
      assert RefOk(fs, own, q);
      if Target(fs, q) != 0 { assert BlockOk(sb, fs, own, Target(fs, q)); }
    }
    forall c: nat ensures BlockOk(sb, u, o, c) {
      assert BlockOk(sb, fs, own, c);
      if c in o { LinkTargets(sb, fs, own, r, b, o[c]); }
    }
    assert RefOk(fs, own, Ind(r.ino));
    assert r.Indirect? ==> BlockOk(sb, fs, own, Target(fs, Ind(r.ino)));
    forall c: nat | c < sb.size ensures MarkOk(sb, u, o, -1, c) {
      assert MarkOk(sb, fs, own, b, c);
      if r.Indirect? {
        var a := fs.inodes[r.ino].addrs[NDIRECT];
        MarkedAway(sb, fs.disk, a, SetWord(fs.disk[a], r.j, b), c);
      }
    }
  }

  // ---------------------------------------------------------------- balloc and bmap

  /** balloc: the first block whose bit is clear, zeroed; a panic when there is none. */
  method Balloc(sb: Super, fs: Fs) returns (fs': Fs, block: nat, panic: bool)
    requires Sized(sb, fs.disk)
    ensures panic ==> fs' == fs && forall c: nat :: c < sb.size ==> Marked(sb, fs.disk, c)
    ensures !panic ==> block < sb.size && !Marked(sb, fs.disk, block) && fs' == Allocated(sb, fs, block)
    ensures !panic ==> forall c: nat :: c < block ==> Marked(sb, fs.disk, c)
  {
    var b: nat := 0;
    while b < sb.size
      invariant b % BPB == 0
      invariant forall c: nat :: c < b && c < sb.size ==> Marked(sb, fs.disk, c)
    {
      BitmapBelow(sb, b);
      var data := fs.disk[BitmapBlock(sb, b)];
      var bi: nat := 0;
      while bi < BPB && b + bi < sb.size
        invariant bi <= BPB
        invariant forall c: nat :: c < b + bi && c < sb.size ==> Marked(sb, fs.disk, c)
      {
        assert (b + bi) / BPB == b / BPB && (b + bi) % BPB == bi;
        if !Bit(data, bi) {
          fs' := fs.(disk := fs.disk[BitmapBlock(sb, b) := SetBit(data, bi, true)],
            logged := fs.logged + {BitmapBlock(sb, b)});
          fs' := fs'.(disk := fs'.disk[b + bi := Zeros()], logged := fs'.logged + {b + bi});
          assert fs.logged + {BitmapBlock(sb, b)} + {b + bi} == fs.logged + {BitmapBlock(sb, b), b + bi};
          return fs', b + bi, false;
        }
        bi := bi + 1;
      }
      b := b + BPB;
    }
    return fs, 0, true;
  }

  /** One pointer slot r is filled if it was empty; nothing else is re-targeted, and no owned block but the
      indirect block that holds the slot changes. */
  ghost predicate Filled(sb: Super, fs: Fs, own: map<nat, Ref>, fs': Fs, own': map<nat, Ref>, r: Ref) {
    var b := Target(fs', r);
    && FsOk(sb, fs', own') && sb.datastart <= b < sb.size && |fs.disk| == |fs'.disk|
    && (forall q: Ref :: q != r ==> Target(fs', q) == Target(fs, q))
    && (if Target(fs, r) != 0 then fs' == fs && own' == own
        else b !in own && own' == own[b := r] && fs'.disk[b] == Zeros())
    && (forall c: nat :: c in own && !(r.Indirect? && own[c] == Ind(r.ino)) ==>
      c < |fs.disk| && fs'.disk[c] == fs.disk[c])
    && SameSizes(fs, fs') && (forall m: nat :: m in fs.inodes && m != r.ino ==> fs'.inodes[m] == fs.inodes[m])
    && fs'.logged <= fs.logged + SlotBlocks(sb, fs', r)
  }

  /** The blocks that filling slot r may log. */
  function SlotBlocks(sb: Super, fs: Fs, r: Ref): set<nat> {
    var b := Target(fs, r);
    {BitmapBlock(sb, b), b} + if r.Indirect? then {Target(fs, Ind(r.ino))} else {}
  }

  predicate SameSizes(fs: Fs, fs': Fs) {
    fs'.inodes.Keys == fs.inodes.Keys && forall m :: m in fs.inodes ==> fs'.inodes[m].size == fs.inodes[m].size
  }

  lemma FilledTargets(sb: Super, fs: Fs, own: map<nat, Ref>, r: Ref, b: nat, q: Ref)
    requires FsOk(sb, fs, own) && CanHold(fs, r) && Target(fs, r) == 0 && b < sb.size && !Marked(sb, fs.disk, b)
    ensures CanHold(Allocated(sb, fs, b), r)
    ensures Target(Linked(Allocated(sb, fs, b), r, b), q) == if q == r then b else Target(fs, q)
  {
    AllocTargets(sb, fs, own, b, r);
    AllocTargets(sb, fs, own, b, q);
    AllocKeeps(sb, fs, own, b);
    LinkTargets(sb, Allocated(sb, fs, b), own, r, b, q);
  }

  lemma FilledBlocks(sb: Super, fs: Fs, own: map<nat, Ref>, r: Ref, b: nat)
    requires FsOk(sb, fs, own) && CanHold(fs, r) && Target(fs, r) == 0 && b < sb.size && !Marked(sb, fs.disk, b)
    ensures CanHold(Allocated(sb, fs, b), r)
    ensures var w := Linked(Allocated(sb, fs, b), r, b);
      && sb.datastart <= b && |w.disk| == |fs.disk| && w.disk[b] == Zeros()
      && forall c: nat :: c in own && !(r.Indirect? && own[c] == Ind(r.ino)) ==>
        c < |fs.disk| && w.disk[c] == fs.disk[c]
  {
    AllocTargets(sb, fs, own, b, r);
    assert RefOk(fs, own, Ind(r.ino));
    assert Target(fs, Ind(r.ino)) != 0 ==> BlockOk(sb, fs, own, Target(fs, Ind(r.ino)));
    forall c: nat | c in own ensures sb.datastart <= c < |fs.disk| && c != b { assert BlockOk(sb, fs, own, c); }
  }

  lemma FilledBy(sb: Super, fs: Fs, own: map<nat, Ref>, r: Ref, b: nat)
    requires FsOk(sb, fs, own) && CanHold(fs, r) && Target(fs, r) == 0 && b < sb.size && !Marked(sb, fs.disk, b)
    ensures CanHold(Allocated(sb, fs, b), r)
    ensures Filled(sb, fs, own, Linked(Allocated(sb, fs, b), r, b), own[b := r], r)
  {
    var u := Allocated(sb, fs, b);
    AllocTargets(sb, fs, own, b, r);
    AllocKeeps(sb, fs, own, b);
    LinkKeeps(sb, u, own, r, b);
    FilledBlocks(sb, fs, own, r, b);
    forall q: Ref ensures Target(Linked(u, r, b), q) == if q == r then b else Target(fs, q) {
      FilledTargets(sb, fs, own, r, b, q);
    }
  }

  /** "if the slot is 0, put a new block there". */
  method Ensure(sb: Super, fs: Fs, ghost own: map<nat, Ref>, r: Ref)
    returns (fs': Fs, ghost own': map<nat, Ref>, b: nat, panic: bool)
    requires FsOk(sb, fs, own) && CanHold(fs, r)
    ensures panic ==> fs' == fs && forall c: nat :: c < sb.size ==> Marked(sb, fs.disk, c)
    ensures !panic ==> b == Target(fs', r) && Filled(sb, fs, own, fs', own', r)
    ensures Target(fs, r) != 0 ==> !panic
  {
    b := Target(fs, r);
    if b != 0 {
      assert RefOk(fs, own, r) && BlockOk(sb, fs, own, b);
      forall c: nat | c in own ensures c < |fs.disk| { assert BlockOk(sb, fs, own, c); }
      return fs, own, b, false;
    }
    var u, block, full := Balloc(sb, fs);
    if full { return fs, own, 0, true; }
    FilledBy(sb, fs, own, r, block);
    fs', own', b, panic := Linked(u, r, block), own[block := r], block, false;
  }

  /** The place of the bn'th block number of a file. */
  function DataRef(ino: nat, bn: nat): Ref { if bn < NDIRECT then Direct(ino, bn) else Indirect(ino, bn - NDIRECT) }

  /** The disk block of the bn'th block of a file, 0 when it is not mapped. */
  function Lookup(fs: Fs, ino: nat, bn: nat): nat { Target(fs, DataRef(ino, bn)) }

  /** The blocks that mapping block bn of a file may log. */
  function MapBlocks(sb: Super, fs: Fs, ino: nat, bn: nat): set<nat> {
    var a, d := Target(fs, Ind(ino)), Lookup(fs, ino, bn);
    {BitmapBlock(sb, d), d} + if bn < NDIRECT then {} else {BitmapBlock(sb, a), a}
  }

  /** Block bn of the file is mapped, to a zeroed block if it was not; nothing else that holds data changes. */
  ghost predicate Mapped(sb: Super, fs: Fs, own: map<nat, Ref>, fs': Fs, own': map<nat, Ref>, ino: nat, bn: nat) {
    && FsOk(sb, fs', own') && |fs.disk| == |fs'.disk|
    && MappedRefs(sb, fs, own, fs', own', DataRef(ino, bn)) && MappedBlocks(fs, own, fs', own') &&
      SameInodes(fs, fs', ino)
    && fs'.logged <= fs.logged + MapBlocks(sb, fs', ino, bn)
  }

  ghost predicate MappedRefs(sb: Super, fs: Fs, own: map<nat, Ref>, fs': Fs, own': map<nat, Ref>, r: Ref) {
    var b := Target(fs', r);
    && sb.datastart <= b < |fs'.disk|
    && (forall q: Ref :: q != r && !q.Ind? ==> Target(fs', q) == Target(fs, q))
    && if Target(fs, r) != 0 then fs' == fs && own' == own else b !in own && fs'.disk[b] == Zeros()
  }

  ghost predicate MappedBlocks(fs: Fs, own: map<nat, Ref>, fs': Fs, own': map<nat, Ref>)
    requires |fs.disk| == |fs'.disk|
  {
    forall c: nat :: c in own ==>
      c in own' && own'[c] == own[c] && (!own[c].Ind? ==> c < |fs.disk| && fs'.disk[c] == fs.disk[c])
  }

  ghost predicate SameInodes(fs: Fs, fs': Fs, ino: nat) {
    SameSizes(fs, fs') && forall m: nat :: m in fs.inodes && m != ino ==> fs'.inodes[m] == fs.inodes[m]
  }

  lemma FilledOnce(sb: Super, fs: Fs, own: map<nat, Ref>, fs': Fs, own': map<nat, Ref>, ino: nat, bn: nat)
    requires bn < NDIRECT && Filled(sb, fs, own, fs', own', Direct(ino, bn))
    ensures Mapped(sb, fs, own, fs', own', ino, bn)
  {
    assert MappedBlocks(fs, own, fs', own');
  }

  lemma TwiceLogged(sb: Super, fs: Fs, own: map<nat, Ref>, u: Fs, o: map<nat, Ref>, fs': Fs, own': map<nat, Ref>,
    ino: nat, j: nat)
    requires Filled(sb, fs, own, u, o, Ind(ino)) && Filled(sb, u, o, fs', own', Indirect(ino, j))
    ensures fs'.logged <= fs.logged + MapBlocks(sb, fs', ino, NDIRECT + j)
  {
    assert Target(fs', Ind(ino)) == Target(u, Ind(ino));
    assert SlotBlocks(sb, u, Ind(ino)) <= MapBlocks(sb, fs', ino, NDIRECT + j);
  }

  lemma TwiceBlocks(sb: Super, fs: Fs, own: map<nat, Ref>, u: Fs, o: map<nat, Ref>, fs': Fs, own': map<nat, Ref>,
    ino: nat, j: nat)
    requires Filled(sb, fs, own, u, o, Ind(ino)) && Filled(sb, u, o, fs', own', Indirect(ino, j))
    ensures MappedBlocks(fs, own, fs', own') && SameInodes(fs, fs', ino)
  {
    forall c: nat | c in own
      ensures c in own' && own'[c] == own[c] && (!own[c].Ind? ==> c < |fs.disk| && fs'.disk[c] == fs.disk[c])
    {
      assert c in o && o[c] == own[c];
    }
  }

  lemma FilledTwice(sb: Super, fs: Fs, own: map<nat, Ref>, u: Fs, o: map<nat, Ref>, fs': Fs, own': map<nat, Ref>,
    ino: nat, j: nat)
    requires FsOk(sb, fs, own)
    requires Filled(sb, fs, own, u, o, Ind(ino)) && Filled(sb, u, o, fs', own', Indirect(ino, j))
    ensures Mapped(sb, fs, own, fs', own', ino, NDIRECT + j)
  {
    TwiceLogged(sb, fs, own, u, o, fs', own', ino, j);
    TwiceBlocks(sb, fs, own, u, o, fs', own', ino, j);
    var r := Indirect(ino, j);
    assert Target(u, r) == Target(fs, r);
    assert RefOk(fs, own, Ind(ino));
    assert MappedRefs(sb, fs, own, fs', own', r);
  }

  /** bmap. Running out of blocks, or a block beyond the largest file, is a panic. */
  method Bmap(sb: Super, fs: Fs, ghost own: map<nat, Ref>, ino: nat, bn: nat)
    returns (fs': Fs, ghost own': map<nat, Ref>, addr: nat, panic: bool)
    requires FsOk(sb, fs, own) && ino in fs.inodes
    ensures panic ==> bn >= MAXFILE || (Sized(sb, fs'.disk) && forall c: nat :: c < sb.size ==> Marked(sb, fs'.disk, c))
    ensures !panic ==> bn < MAXFILE && addr == Lookup(fs', ino, bn) && Mapped(sb, fs, own, fs', own', ino, bn)
    ensures bn < MAXFILE && Lookup(fs, ino, bn) != 0 ==> !panic
  {
    if bn < NDIRECT {
      fs', own', addr, panic := Ensure(sb, fs, own, Direct(ino, bn));
      if !panic { FilledOnce(sb, fs, own, fs', own', ino, bn); }
    } else if bn - NDIRECT < NINDIRECT {
      fs', own', addr, panic := MapIndirect(sb, fs, own, ino, bn - NDIRECT);
    } else {
      return fs, own, 0, true;
    }
  }

  /** bmap beyond the direct blocks: load the indirect block, allocating if necessary. */
  method MapIndirect(sb: Super, fs: Fs, ghost own: map<nat, Ref>, ino: nat, j: nat)
    returns (fs': Fs, ghost own': map<nat, Ref>, addr: nat, panic: bool)
    requires FsOk(sb, fs, own) && ino in fs.inodes && j < NINDIRECT
    ensures panic ==> Sized(sb, fs'.disk) && forall c: nat :: c < sb.size ==> Marked(sb, fs'.disk, c)
    ensures !panic ==> addr == Target(fs', Indirect(ino, j)) && Mapped(sb, fs, own, fs', own', ino, NDIRECT + j)
    ensures Target(fs, Indirect(ino, j)) != 0 ==> !panic
  {
    var u, o, a, full := Ensure(sb, fs, own, Ind(ino));
    if full { return fs, own, 0, true; }
    assert Target(u, Indirect(ino, j)) == Target(fs, Indirect(ino, j));
    fs', own', addr, panic := Ensure(sb, u, o, Indirect(ino, j));
    if !panic { FilledTwice(sb, fs, own, u, o, fs', own', ino, j); }
  }

  // ---------------------------------------------------------------- bfree and itrunc

  function Unmarked(sb: Super, fs: Fs, b: nat): Fs
    requires Sized(sb, fs.disk) && b < sb.size
  {
    fs.(disk := Mark(sb, fs.disk, b, false), logged := fs.logged + {BitmapBlock(sb, b)})
  }

  /** bfree; freeing a free block is a panic. */
  method Bfree(sb: Super, fs: Fs, b: nat) returns (fs': Fs, panic: bool)
    requires Sized(sb, fs.disk) && b < sb.size
    ensures panic <==> !Marked(sb, fs.disk, b)
    ensures !panic ==> fs' == Unmarked(sb, fs, b)
  {
    BitmapBelow(sb, b);
    var bp := fs.disk[BitmapBlock(sb, b)];
    if !Bit(bp, b % BPB) { return fs, true; }
    fs' := fs.(disk := fs.disk[BitmapBlock(sb, b) := SetBit(bp, b % BPB, false)],
      logged := fs.logged + {BitmapBlock(sb, b)});
    panic := false;
  }

  /** own without block b. */
  ghost predicate Dropped(own: map<nat, Ref>, own': map<nat, Ref>, b: nat) {
    forall c: nat :: (c in own' <==> c in own && c != b) && (c in own' ==> own'[c] == own[c])
  }

  /** Taking away the mark of an owned block together with its reference, or counting the reference as gone. */
  lemma FreeKeeps(sb: Super, fs: Fs, own: map<nat, Ref>, n: int, j: int, b: nat, fs': Fs, own': map<nat, Ref>, j': int)
    requires OwnOk(sb, fs, own, -1, n, j) && b in own && Dropped(own, own', b)
    requires b < sb.size && fs'.disk == Mark(sb, fs.disk, b, false)
    requires forall q: Ref :: !Gone(q, n, j') ==>
      !Gone(q, n, j) && Target(fs', q) == if q == own[b] then 0 else Target(fs, q)
    requires forall c: nat :: c in own' ==> !Gone(own[c], n, j')
    ensures OwnOk(sb, fs', own', -1, n, j')
  {
    assert BlockOk(sb, fs, own, b);
    BitmapBelow(sb, b);
    forall q: Ref | !Gone(q, n, j') ensures RefOk(fs', own', q) {
      assert RefOk(fs, own, q);
    }
    forall c: nat ensures BlockOk(sb, fs', own', c) {
      assert BlockOk(sb, fs, own, c);
    }
    forall c: nat | c < sb.size ensures MarkOk(sb, fs', own', -1, c) {
      assert MarkOk(sb, fs, own, -1, c);
      MarkAt(sb, fs.disk, b, false, c);
    }
  }

  /** What itrunc has let go when it has passed i direct and j indirect references of inode n. */
  predicate Shed(r: Ref, n: nat, i: nat, j: nat) { r.ino == n && ((r.Direct? && r.i < i) || (r.Indirect? && r.j < j)) }

  ghost predicate Cleared(own: map<nat, Ref>, own': map<nat, Ref>, n: nat, i: nat, j: nat) {
    forall c: nat :: (c in own' <==> c in own && !Shed(own[c], n, i, j)) && (c in own' ==> own'[c] == own[c])
  }

  /** Only bitmap blocks differ. */
  ghost predicate SameData(sb: Super, fs: Fs, fs': Fs) {
    |fs'.disk| == |fs.disk| && forall c: nat :: sb.datastart <= c < |fs.disk| ==> fs'.disk[c] == fs.disk[c]
  }

  /** Inode n has lost its first i direct addresses and nothing else. */
  ghost predicate Shortened(fs: Fs, fs': Fs, n: nat, i: nat)
    requires n in fs.inodes
  {
    && fs'.inodes.Keys == fs.inodes.Keys && fs'.inodes[n].size == fs.inodes[n].size
    && (forall m: nat :: m in fs.inodes && m != n ==> fs'.inodes[m] == fs.inodes[m])
    && forall k: nat :: k <= NDIRECT ==> fs'.inodes[n].addrs[k] == if k < i then 0 else fs.inodes[n].addrs[k]
  }

  /** A reference without a target was never an owner. */
  lemma NoOwner(sb: Super, fs: Fs, own: map<nat, Ref>, r: Ref)
    requires FsOk(sb, fs, own) && Target(fs, r) == 0
    ensures forall c: nat :: c in own ==> own[c] != r
  {
    forall c: nat | c in own ensures own[c] != r { assert BlockOk(sb, fs, own, c); }
  }

  function WithoutDirect(fs: Fs, n: nat, i: nat): Fs
    requires n in fs.inodes && i <= NDIRECT
  {
    fs.(inodes := fs.inodes[n := fs.inodes[n].(addrs := fs.inodes[n].addrs[i := 0])])
  }

  lemma FreedDirect(sb: Super, fs: Fs, own: map<nat, Ref>, n: nat, i: nat)
    requires FsOk(sb, fs, own) && n in fs.inodes && i < NDIRECT && fs.inodes[n].addrs[i] != 0
    ensures var b := fs.inodes[n].addrs[i];
      && b in own && own[b] == Direct(n, i) && sb.datastart <= b < sb.size && Marked(sb, fs.disk, b)
      && FsOk(sb, WithoutDirect(Unmarked(sb, fs, b), n, i), own - {b})
  {
    var r, b := Direct(n, i), fs.inodes[n].addrs[i];
    assert Target(fs, r) == b && RefOk(fs, own, r) && BlockOk(sb, fs, own, b) && MarkOk(sb, fs, own, -1, b);
    BitmapBelow(sb, b);
    var u := WithoutDirect(Unmarked(sb, fs, b), n, i);
    forall q: Ref | !Gone(q, -1, 0) ensures Target(u, q) == if q == r then 0 else Target(fs, q) {
      assert RefOk(fs, own, Ind(q.ino));
      if Target(fs, Ind(q.ino)) != 0 { assert BlockOk(sb, fs, own, Target(fs, Ind(q.ino))); }
    }
    FreeKeeps(sb, fs, own, -1, 0, b, u, own - {b}, 0);
  }

  lemma OnlyOwner(sb: Super, fs: Fs, own: map<nat, Ref>, r: Ref)
    requires FsOk(sb, fs, own)
    ensures forall c: nat :: c in own && own[c] == r ==> c == Target(fs, r)
  {
    forall c: nat | c in own && own[c] == r ensures c == Target(fs, r) { assert BlockOk(sb, fs, own, c); }
  }

  /** The blocks of own held by r, if any, are dropped. */
  ghost predicate DroppedRef(own: map<nat, Ref>, own': map<nat, Ref>, r: Ref) {
    forall c: nat :: (c in own' <==> c in own && own[c] != r) && (c in own' ==> own'[c] == own[c])
  }

  /** One turn of the first loop of itrunc. */
  method FreeDirect(sb: Super, fs: Fs, ghost own: map<nat, Ref>, n: nat, i: nat) returns (f: Fs, ghost o: map<nat, Ref>)
    requires FsOk(sb, fs, own) && n in fs.inodes && i < NDIRECT
    ensures FsOk(sb, f, o) && DroppedRef(own, o, Direct(n, i)) && SameData(sb, fs, f)
    ensures f.inodes == fs.inodes[n := fs.inodes[n].(addrs := fs.inodes[n].addrs[i := 0])]
  {
    f, o := fs, own;
    OnlyOwner(sb, fs, own, Direct(n, i));
    var b := fs.inodes[n].addrs[i];
    if b != 0 {
      FreedDirect(sb, fs, own, n, i);
      BitmapBelow(sb, b);
      var u, panic := Bfree(sb, fs, b);
      f := WithoutDirect(u, n, i);
      o := own - {b};
    } else {
      NoOwner(sb, fs, own, Direct(n, i));
      assert fs.inodes[n].addrs[i := 0] == fs.inodes[n].addrs;
    }
  }

  /** The first loop of itrunc: every direct block is freed; no bfree panics. */
  method FreeDirects(sb: Super, fs: Fs, ghost own: map<nat, Ref>, n: nat) returns (f: Fs, ghost o: map<nat, Ref>)
    requires FsOk(sb, fs, own) && n in fs.inodes
    ensures FsOk(sb, f, o) && Cleared(own, o, n, NDIRECT, 0) && SameData(sb, fs, f) && Shortened(fs, f, n, NDIRECT)
  {
    f, o := fs, own;
    var i: nat := 0;
    while i < NDIRECT
      invariant i <= NDIRECT && FsOk(sb, f, o) && Cleared(own, o, n, i, 0) && SameData(sb, fs, f) &&
        Shortened(fs, f, n, i)
    {
      f, o := FreeDirect(sb, f, o, n, i);
      i := i + 1;
    }
  }

  /** Bitmap changes re-target nothing. */
  lemma UnmarkTargets(sb: Super, fs: Fs, own: map<nat, Ref>, n: int, j: int, b: nat, q: Ref)
    requires OwnOk(sb, fs, own, -1, n, j) && b < sb.size
    ensures Target(Unmarked(sb, fs, b), q) == Target(fs, q)
  {
    BitmapBelow(sb, b);
    assert RefOk(fs, own, Ind(q.ino));
    if Target(fs, Ind(q.ino)) != 0 { assert BlockOk(sb, fs, own, Target(fs, Ind(q.ino))); }
  }

  lemma FreedEntry(sb: Super, fs: Fs, own: map<nat, Ref>, n: nat, j: nat)
    requires OwnOk(sb, fs, own, -1, n, j) && Target(fs, Indirect(n, j)) != 0
    ensures var b := Target(fs, Indirect(n, j));
      && b in own && own[b] == Indirect(n, j) && sb.datastart <= b < sb.size && Marked(sb, fs.disk, b)
      && OwnOk(sb, Unmarked(sb, fs, b), own - {b}, -1, n, j + 1) && DroppedRef(own, own - {b}, Indirect(n, j))
  {
    var r, b := Indirect(n, j), Target(fs, Indirect(n, j));
    assert RefOk(fs, own, r) && BlockOk(sb, fs, own, b) && MarkOk(sb, fs, own, -1, b);
    forall q: Ref | !Gone(q, n, j + 1) ensures Target(Unmarked(sb, fs, b), q) == Target(fs, q) {
      UnmarkTargets(sb, fs, own, n, j, b, q);
    }
    forall c: nat | c in own && own[c] == r ensures c == b { assert BlockOk(sb, fs, own, c); }
    FreeKeeps(sb, fs, own, n, j, b, Unmarked(sb, fs, b), own - {b}, j + 1);
  }

  lemma EmptyEntry(sb: Super, fs: Fs, own: map<nat, Ref>, n: nat, j: nat)
    requires OwnOk(sb, fs, own, -1, n, j) && Target(fs, Indirect(n, j)) == 0
    ensures OwnOk(sb, fs, own, -1, n, j + 1) && DroppedRef(own, own, Indirect(n, j))
  {
    forall c: nat | c in own ensures own[c] != Indirect(n, j) { assert BlockOk(sb, fs, own, c); }
    assert forall q: Ref :: Gone(q, n, j) ==> Gone(q, n, j + 1);
  }

  /** The second loop of itrunc: every block in the indirect block is freed; no bfree panics. */
  method FreeEntries(sb: Super, fs: Fs, ghost own: map<nat, Ref>, n: nat) returns (f: Fs, ghost o: map<nat, Ref>)
    requires OwnOk(sb, fs, own, -1, n, 0) && n in fs.inodes && fs.inodes[n].addrs[NDIRECT] != 0
    ensures OwnOk(sb, f, o, -1, n, NINDIRECT) && Cleared(own, o, n, 0, NINDIRECT) && SameData(sb, fs, f) &&
      f.inodes == fs.inodes
  {
    var a := fs.inodes[n].addrs[NDIRECT];
    assert Target(fs, Ind(n)) == a && RefOk(fs, own, Ind(n)) && BlockOk(sb, fs, own, a);
    var data := fs.disk[a];
    f, o := fs, own;
    var j: nat := 0;
    while j < NINDIRECT
      invariant j <= NINDIRECT && OwnOk(sb, f, o, -1, n, j) && Cleared(own, o, n, 0, j)
      invariant SameData(sb, fs, f) && f.inodes == fs.inodes
    {
      var b := Word(data, j);
      assert Target(f, Indirect(n, j)) == b;
      if b != 0 {
        FreedEntry(sb, f, o, n, j);
        BitmapBelow(sb, b);
        var u, panic := Bfree(sb, f, b);
        f, o := u, o - {b};
      } else {
        EmptyEntry(sb, f, o, n, j);
      }
      j := j + 1;
    }
  }

  /** Freeing the indirect block itself, last. */
  lemma FreedIndirect(sb: Super, fs: Fs, own: map<nat, Ref>, n: nat)
    requires OwnOk(sb, fs, own, -1, n, NINDIRECT) && n in fs.inodes && fs.inodes[n].addrs[NDIRECT] != 0
    ensures var b := fs.inodes[n].addrs[NDIRECT];
      && b in own && own[b] == Ind(n) && sb.datastart <= b < sb.size && Marked(sb, fs.disk, b)
      && FsOk(sb, WithoutDirect(Unmarked(sb, fs, b), n, NDIRECT), own - {b}) && DroppedRef(own, own - {b}, Ind(n))
  {
    var r, b := Ind(n), fs.inodes[n].addrs[NDIRECT];
    assert Target(fs, r) == b && RefOk(fs, own, r) && BlockOk(sb, fs, own, b) && MarkOk(sb, fs, own, -1, b);
    var u := WithoutDirect(Unmarked(sb, fs, b), n, NDIRECT);
    forall q: Ref | !Gone(q, n, NINDIRECT) ensures Target(u, q) == if q == r then 0 else Target(fs, q) {
      UnmarkTargets(sb, fs, own, n, NINDIRECT, b, q);
    }
    forall c: nat | c in own && own[c] == r ensures c == b { assert BlockOk(sb, fs, own, c); }
    FreeKeeps(sb, fs, own, n, NINDIRECT, b, u, own - {b}, NINDIRECT);
    forall q: Ref ensures RefOk(u, own - {b}, q) {
      if Gone(q, n, NINDIRECT) { assert Target(u, q) == 0; }
    }
    assert forall q: Ref :: !Gone(q, -1, 0);
  }

  lemma FromTheStart(sb: Super, fs: Fs, own: map<nat, Ref>, n: nat)
    requires FsOk(sb, fs, own)
    ensures OwnOk(sb, fs, own, -1, n, 0)
  {
    assert forall q: Ref :: !Gone(q, -1, 0) && !Gone(q, n, 0);
  }

  function Resized(fs: Fs, n: nat, size: nat): Fs
    requires n in fs.inodes
  {
    fs.(inodes := fs.inodes[n := fs.inodes[n].(size := size)])
  }

  /** Ownership does not depend on sizes or on what is logged. */
  lemma OwnershipKept(sb: Super, fs: Fs, own: map<nat, Ref>, u: Fs)
    requires FsOk(sb, fs, own) && u.disk == fs.disk && u.inodes.Keys == fs.inodes.Keys
    requires forall m: nat :: m in fs.inodes ==> u.inodes[m].addrs == fs.inodes[m].addrs
    ensures FsOk(sb, u, own) && forall q: Ref :: Target(u, q) == Target(fs, q)
  {
    forall q: Ref ensures Target(u, q) == Target(fs, q) &&
      RefOk(u, own, q) { assert !Gone(q, -1, 0) && RefOk(fs, own, q); }
    forall c: nat ensures BlockOk(sb, u, own, c) { assert BlockOk(sb, fs, own, c); }
    forall c: nat | c < sb.size ensures MarkOk(sb, u, own, -1, c) { assert MarkOk(sb, fs, own, -1, c); }
  }

  lemma NoIndirects(sb: Super, fs: Fs, own: map<nat, Ref>, n: nat)
    requires FsOk(sb, fs, own) && n in fs.inodes && fs.inodes[n].addrs[NDIRECT] == 0
    ensures forall c: nat :: c in own && own[c].ino == n ==> own[c].Direct?
  {
    forall c: nat | c in own && own[c].ino == n ensures own[c].Direct? { assert BlockOk(sb, fs, own, c); }
  }

  /** itrunc: exactly the blocks the inode owned are freed, none twice, and the inode is empty. */
  method Itrunc(sb: Super, fs: Fs, ghost own: map<nat, Ref>, n: nat) returns (f: Fs, ghost o: map<nat, Ref>)
    requires FsOk(sb, fs, own) && n in fs.inodes
    ensures FsOk(sb, f, o) && SameData(sb, fs, f)
    ensures f.inodes == fs.inodes[n := Inode(seq(NDIRECT + 1, _ => 0), 0)]
    ensures forall c: nat :: (c in o <==> c in own && own[c].ino != n) && (c in o ==> o[c] == own[c])
  {
    f, o := FreeDirects(sb, fs, own, n);
    if f.inodes[n].addrs[NDIRECT] != 0 {
      f, o := FreeIndirect(sb, f, o, n);
    } else {
      NoIndirects(sb, f, o, n);
    }
    forall c: nat | c in own && own[c].Direct? ensures own[c].i < NDIRECT { assert BlockOk(sb, fs, own, c); }
    OwnershipKept(sb, f, o, Resized(f, n, 0));
    f := Resized(f, n, 0);
    assert f.inodes[n].addrs == seq(NDIRECT + 1, _ => 0);
  }

  method FreeIndirect(sb: Super, fs: Fs, ghost own: map<nat, Ref>, n: nat) returns (f: Fs, ghost o: map<nat, Ref>)
    requires FsOk(sb, fs, own) && n in fs.inodes && fs.inodes[n].addrs[NDIRECT] != 0
    ensures FsOk(sb, f, o) && SameData(sb, fs, f)
    ensures f.inodes == fs.inodes[n := fs.inodes[n].(addrs := fs.inodes[n].addrs[NDIRECT := 0])]
    ensures forall c: nat ::
      (c in o <==> c in own && !(own[c].ino == n && (own[c].Ind? || own[c].Indirect?))) && (c in o ==> o[c] == own[c])
  {
    FromTheStart(sb, fs, own, n);
    f, o := FreeEntries(sb, fs, own, n);
    var a := f.inodes[n].addrs[NDIRECT];
    FreedIndirect(sb, f, o, n);
    BitmapBelow(sb, a);
    forall c: nat | c in own && own[c].Indirect? ensures own[c].j < NINDIRECT { assert BlockOk(sb, fs, own, c); }
    var u, panic := Bfree(sb, f, a);
    f, o := WithoutDirect(u, n, NDIRECT), o - {a};
  }

  // ---------------------------------------------------------------- what the invariant says

  /** No block has two owners, and a data block's bit is set exactly when some inode refers to it. */
  lemma OwnedOnce(sb: Super, fs: Fs, own: map<nat, Ref>, r: Ref, q: Ref, b: nat)
    requires FsOk(sb, fs, own) && sb.datastart <= b < sb.size
    ensures Target(fs, r) == Target(fs, q) != 0 ==> r == q
    ensures Marked(sb, fs.disk, b) <==> exists x: Ref :: Target(fs, x) == b
  {
    assert !Gone(r, -1, 0) && RefOk(fs, own, r) && !Gone(q, -1, 0) && RefOk(fs, own, q);
    assert MarkOk(sb, fs, own, -1, b);
    if b in own {
      assert BlockOk(sb, fs, own, b) && Target(fs, own[b]) == b;
    } else {
      forall x: Ref ensures Target(fs, x) != b { assert !Gone(x, -1, 0) && RefOk(fs, own, x); }
    }
  }
}
