/** Directories as files (kernel/fs.c): dirlookup and dirlink read and write 16-byte entries of the content of a
    directory inode with readi and writei. */
module DirFiles {
  import opened Basics
  import opened FsCodec
  import opened FsBlocks
  import opened FsFiles
  import opened Directory

  const DIRENT: nat := 16  // sizeof(struct dirent)

  /** An entry as it lies in the file: two bytes of inode number, the lower one first, and the name field. */
  function Decode(b: seq<Byte>): Dirent
    requires |b| == DIRENT
  {
    Dirent(b[0] as int + 256 * b[1] as int, seq(DIRSIZ, k requires 0 <= k < DIRSIZ => b[2 + k] as char))
  }

  /** Names are made of bytes. */
  predicate Plain(s: string) { forall i :: 0 <= i < |s| ==> s[i] as int < 256 }

  function Encode(e: Dirent): (b: seq<Byte>)
    requires Plain(e.name)
    ensures |b| == DIRENT
  {
    [e.inum % 256, e.inum / 256] + seq(DIRSIZ, k requires 0 <= k < DIRSIZ => e.name[k] as int)
  }

  lemma DecodeEncode(e: Dirent)
    requires Plain(e.name)
    ensures Decode(Encode(e)) == e
  {
    assert Decode(Encode(e)).name == e.name;
  }

  /** The entries that a content of whole entries holds. */
  function Entries(c: seq<Byte>): (d: seq<Dirent>)
    requires |c| % DIRENT == 0
    ensures |d| == |c| / DIRENT
    ensures forall i :: 0 <= i < |d| ==> d[i] == Decode(c[DIRENT * i..DIRENT * i + DIRENT])
  {
    seq(|c| / DIRENT, i requires 0 <= i < |c| / DIRENT => Decode(c[DIRENT * i..DIRENT * i + DIRENT]))
  }

  /** The bytes of entry j after entry i was laid over the content. */
  lemma SplicedEntry(c: seq<Byte>, i: nat, x: seq<Byte>, j: nat)
    requires |c| % DIRENT == 0 && DIRENT * i <= |c| && |x| == DIRENT
    requires DIRENT * j + DIRENT <= |Splice(c, DIRENT * i, x)|
    ensures Splice(c, DIRENT * i, x)[DIRENT * j..DIRENT * j + DIRENT]
         == if j == i then x else if DIRENT * j + DIRENT <= |c| then c[DIRENT * j..DIRENT * j + DIRENT] else x
    ensures j != i ==> DIRENT * j + DIRENT <= |c|
  {
    var r := Splice(c, DIRENT * i, x);
    if j == i {
      assert forall k: nat :: k < DIRENT ==> r[DIRENT * j + k] == x[k];
    } else {
      assert forall p: nat :: DIRENT * j <= p < DIRENT * j + DIRENT ==> r[p] == c[p];
    }
  }

  /** Writing an entry at a multiple of its size replaces that entry or adds one. */
  lemma SplicedEntries(c: seq<Byte>, i: nat, e: Dirent)
    requires |c| % DIRENT == 0 && DIRENT * i <= |c| && Plain(e.name)
    ensures var r := Splice(c, DIRENT * i, Encode(e)); var d := Entries(c);
      |r| % DIRENT == 0 && i <= |d| && Entries(r) == if i < |d| then d[i := e] else d + [e]
  {
    var r, d := Splice(c, DIRENT * i, Encode(e)), Entries(c);
    DecodeEncode(e);
    var want := if i < |d| then d[i := e] else d + [e];
    assert |r| == DIRENT * |want|;
    forall j | 0 <= j < |want| ensures Entries(r)[j] == want[j] { SplicedEntry(c, i, Encode(e), j); }
  }

  // ---------------------------------------------------------------- the code

  /** The inode holds a directory: whole entries, no name twice. */
  ghost predicate IsDir(fs: Fs, dp: nat) {
    && dp in fs.inodes && fs.inodes[dp].size % DIRENT == 0
    && DirOk(Entries(Content(fs, dp)))
  }

  /** readi of entry i into a struct dirent. */
  method ReadEntry(sb: Super, fs: Fs, ghost own: map<nat, Ref>, dp: nat, i: nat) returns (e: Dirent)
    requires FsOk(sb, fs, own) && FilesOk(fs) && IsDir(fs, dp) && DIRENT * i + DIRENT <= fs.inodes[dp].size
    ensures i < |Entries(Content(fs, dp))| && e == Entries(Content(fs, dp))[i]
  {
    assert FileOk(fs, dp);
    var out, same := Readi(sb, fs, own, dp, DIRENT * i, DIRENT);
    assert out == Content(fs, dp)[DIRENT * i..DIRENT * i + DIRENT];
    e := Decode(out);
  }

  /** dirlookup on the file: the inode number and the place of the name, 0 exactly when the map does not have it. */
  method LookupEntry(sb: Super, fs: Fs, ghost own: map<nat, Ref>, dp: nat, name: string) returns (inum: nat, at: nat)
    requires FsOk(sb, fs, own) && FilesOk(fs) && IsDir(fs, dp) && CStr(name)
    ensures var d := Entries(Content(fs, dp));
      && (inum == 0 <==> Trunc(name) !in DirMap(d))
      && (inum != 0 ==> DirMap(d)[Trunc(name)] == inum && LiveAt(d, at) && NameOf(d[at].name) == Trunc(name))
  {
    ghost var d := Entries(Content(fs, dp));
    MapAt(d, Trunc(name));
    at := 0;
    while DIRENT * at < fs.inodes[dp].size
      invariant at <= |d|
      invariant forall i: nat :: i < at && LiveAt(d, i) ==> !HasName(d, i, Trunc(name))
      decreases |d| - at
    {
      var e := ReadEntry(sb, fs, own, dp, at);
      if e.inum != 0 {
        var same := SameName(name, e.name);
        if same {
          assert LiveAt(d, at) && HasName(d, at, Trunc(name));
          return e.inum, at;
        }
      }
      at := at + 1;
    }
    inum := 0;
  }

  /** The loop of dirlink: the first entry without an inode, or the end. */
  method FreeEntry(sb: Super, fs: Fs, ghost own: map<nat, Ref>, dp: nat) returns (at: nat)
    requires FsOk(sb, fs, own) && FilesOk(fs) && IsDir(fs, dp)
    ensures var d := Entries(Content(fs, dp));
      at <= |d| && !LiveAt(d, at) && forall i: nat :: i < at ==> LiveAt(d, i)
  {
    ghost var d := Entries(Content(fs, dp));
    at := 0;
    while DIRENT * at < fs.inodes[dp].size
      invariant at <= |d| && forall i: nat :: i < at ==> LiveAt(d, i)
      decreases |d| - at
    {
      var e := ReadEntry(sb, fs, own, dp, at);
      if e.inum == 0 { return; }
      at := at + 1;
    }
  }

  /** No block is left on the disk. */
  ghost predicate DiskFull(sb: Super, fs: Fs) {
    Sized(sb, fs.disk) && forall c: nat :: c < sb.size ==> Marked(sb, fs.disk, c)
  }

  /** Every entry is in use and the file cannot grow. */
  ghost predicate NoEntryLeft(fs: Fs, dp: nat)
    requires dp in fs.inodes && fs.inodes[dp].size % DIRENT == 0
  {
    && (forall i: nat :: i < |Entries(Content(fs, dp))| ==> LiveAt(Entries(Content(fs, dp)), i))
    && fs.inodes[dp].size + DIRENT > MAXFILE * BSIZE
  }

  /** dirlink on the file: -1 exactly when the name is there, and nothing changes; else the directory's map gets the
      name with the low 16 bits of the inode number, and every other file is as before. It panics only when the disk is
      full, or when no entry is free and the directory cannot grow. */
  method LinkEntry(sb: Super, fs: Fs, ghost own: map<nat, Ref>, dp: nat, iblock: nat, name: string, inum: nat)
    returns (f: Fs, ghost o: map<nat, Ref>, r: int, panic: bool)
    requires FsOk(sb, fs, own) && FilesOk(fs) && IsDir(fs, dp) && CStr(name) && Plain(name)
    ensures panic ==> DiskFull(sb, f) || NoEntryLeft(fs, dp)
    ensures NoEntryLeft(fs, dp) && Trunc(name) !in DirMap(Entries(Content(fs, dp))) ==> panic
    ensures !panic ==> FsOk(sb, f, o) && FilesOk(f) && Apart(fs, f, dp) && IsDir(f, dp)
    ensures !panic ==> r == if Trunc(name) in DirMap(Entries(Content(fs, dp))) then -1 else 0
    ensures !panic && r == -1 ==> f == fs
    ensures !panic && r == 0 ==>
      DirMap(Entries(Content(f, dp))) == Recorded(DirMap(Entries(Content(fs, dp))), Trunc(name), inum)
  {
    f, o, panic := fs, own, false;
    var ip, there := LookupEntry(sb, fs, own, dp, name);
    if ip != 0 { return f, o, -1, false; }
    var at := FreeEntry(sb, fs, own, dp);
    var e := Dirent(inum % 0x1_0000, Pad(name));
    assert FileOk(fs, dp);
    f, o, r, panic := Writei(sb, fs, own, dp, iblock, DIRENT * at, Encode(e));
    if panic { return; }
    if r != DIRENT { return f, o, r, true; }
    r := 0;
    Linked16(Content(fs, dp), at, name, e);
    assert IsDir(f, dp);
  }

  /** What the write of the entry makes of the directory's map. */
  lemma Linked16(c: seq<Byte>, at: nat, name: string, e: Dirent)
    requires |c| % DIRENT == 0 && DirOk(Entries(c)) && at <= |Entries(c)| && !LiveAt(Entries(c), at)
    requires CStr(name) && Plain(e.name) && e.name == Pad(name) && Trunc(name) !in DirMap(Entries(c))
    ensures var r := Splice(c, DIRENT * at, Encode(e));
      && |r| % DIRENT == 0 && DirOk(Entries(r))
      && DirMap(Entries(r)) == if e.inum == 0 then DirMap(Entries(c)) else DirMap(Entries(c))[Trunc(name) := e.inum]
  {
    PadName(name);
    SplicedEntries(c, at, e);
    PutEntry(Entries(c), at, e, Entries(Splice(c, DIRENT * at, Encode(e))));
  }
}
