/** Directories (kernel/fs.c): a directory is an array of entries, read as a map from names
    of at most DIRSIZ characters to inode numbers. Reading and writing an entry succeeds. */
module Directory {
  const DIRSIZ: nat := 14

  type Field = s: seq<char> | |s| == DIRSIZ witness seq(DIRSIZ, _ => '\0')

  type Ushort = x: nat | x < 0x1_0000

  datatype Dirent = Dirent(inum: Ushort, name: Field)

  // ---------------------------------------------------------------- names

  /** A C string without its terminating NUL. */
  predicate CStr(s: string) { '\0' !in s }

  function CharAt(s: string, i: nat): char { if i < |s| then s[i] else '\0' }

  function Trunc(s: string): string { if |s| >= DIRSIZ then s[..DIRSIZ] else s }

  /** The name in a field: up to the first NUL. */
  function NameFrom(f: Field, i: nat): string
    requires i <= DIRSIZ
    decreases DIRSIZ - i
  {
    if i == DIRSIZ || f[i] == '\0' then "" else [f[i]] + NameFrom(f, i + 1)
  }

  function NameOf(f: Field): string { NameFrom(f, 0) }

  /** strncpy into a field: padded with NULs. */
  function Pad(s: string): Field { seq(DIRSIZ, i requires 0 <= i => CharAt(s, i)) }

  lemma {:induction false} NamesEqual(f: Field, s: string, i: nat)
    requires CStr(s) && i <= |Trunc(s)|
    ensures NameFrom(f, i) == Trunc(s)[i..] ==> forall k :: i <= k < |Trunc(s)| ==> f[k] == s[k]
    ensures NameFrom(f, i) == Trunc(s)[i..] && |s| < DIRSIZ ==> f[|s|] == '\0'
    decreases DIRSIZ - i
  {
    if i < |Trunc(s)| && NameFrom(f, i) == Trunc(s)[i..] {
      assert NameFrom(f, i)[0] == s[i];
      assert NameFrom(f, i)[1..] == NameFrom(f, i + 1) == Trunc(s)[i + 1..];
      NamesEqual(f, s, i + 1);
    }
  }

  /** namecmp: strncmp over DIRSIZ characters says equal exactly when the truncated names are. */
  method SameName(s: string, f: Field) returns (same: bool)
    requires CStr(s)
    ensures same <==> Trunc(s) == NameOf(f)
  {
    var i := 0;
    while i < DIRSIZ && CharAt(s, i) != '\0' && CharAt(s, i) == f[i]
      invariant 0 <= i <= |Trunc(s)| && forall k :: 0 <= k < i ==> f[k] == s[k]
    {
      i := i + 1;
    }
    same := i == DIRSIZ || CharAt(s, i) == f[i];
    if Trunc(s) == NameOf(f) { NamesEqual(f, s, 0); }
    if same { NameUpTo(f, s, i); }
  }

  /** A field that agrees with s up to i, where s or the field ends, holds s. */
  lemma NameUpTo(f: Field, s: string, i: nat)
    requires CStr(s) && i <= |Trunc(s)| && (forall k :: 0 <= k < i ==> f[k] == s[k]) &&
      (i == DIRSIZ || (f[i] == '\0' && i == |s|))
    ensures NameOf(f) == Trunc(s)
  {
    NameStep(f, s, 0, i);
  }

  lemma {:induction false} NameStep(f: Field, s: string, j: nat, i: nat)
    requires CStr(s) && j <= i <= |Trunc(s)| && (forall k :: 0 <= k < i ==> f[k] == s[k]) &&
      (i == DIRSIZ || (f[i] == '\0' && i == |s|))
    ensures NameFrom(f, j) == Trunc(s)[j..]
    decreases i - j
  {
    if j < i { NameStep(f, s, j + 1, i); }
  }

  lemma PadName(s: string)
    requires CStr(s)
    ensures NameOf(Pad(s)) == Trunc(s)
  {
    NameUpTo(Pad(s), s, |Trunc(s)|);
  }

  // ---------------------------------------------------------------- directories as maps

  predicate LiveAt(d: seq<Dirent>, i: nat) { i < |d| && d[i].inum != 0 }

  predicate HasName(d: seq<Dirent>, i: nat, name: string)
    requires i < |d|
  {
    NameOf(d[i].name) == name
  }

  /** No name twice. */
  ghost predicate DirOk(d: seq<Dirent>) {
    forall i: nat, j: nat :: LiveAt(d, i) && LiveAt(d, j) && NameOf(d[i].name) == NameOf(d[j].name) ==> i == j
  }

  /** The directory as a map. */
  function DirMap(d: seq<Dirent>): map<string, nat> {
    if d == [] then map[] else
    var m, e := DirMap(d[..|d| - 1]), d[|d| - 1];
    if e.inum == 0 then m else m[NameOf(e.name) := e.inum]
  }

  /** The map holds exactly the live entries. */
  lemma {:induction false} MapAt(d: seq<Dirent>, name: string)
    requires DirOk(d)
    ensures name in DirMap(d) <==> exists i: nat :: LiveAt(d, i) && HasName(d, i, name)
    ensures forall i: nat :: LiveAt(d, i) && HasName(d, i, name) ==> name in DirMap(d) && DirMap(d)[name] == d[i].inum
  {
    if d == [] {
    } else {
      var t, n := d[..|d| - 1], |d| - 1;
      forall i: nat, j: nat | LiveAt(t, i) && LiveAt(t, j) && NameOf(t[i].name) == NameOf(t[j].name) ensures i == j {
        assert LiveAt(d, i) && LiveAt(d, j);
      }
      MapAt(t, name);
      forall i: nat | LiveAt(d, i) && HasName(d, i, name) ensures name in DirMap(d) && DirMap(d)[name] == d[i].inum {
        if i < n { assert LiveAt(t, i) && HasName(t, i, name) && (LiveAt(d, n) ==> !HasName(d, n, name)); }
      }
      if name in DirMap(d) && !(LiveAt(d, n) && HasName(d, n, name)) {
        var i: nat :| LiveAt(t, i) && HasName(t, i, name);
        assert LiveAt(d, i) && HasName(d, i, name);
      }
    }
  }

  /** dirlookup: the inode number and place of the name, 0 exactly when the map does not have it. */
  method Dirlookup(d: seq<Dirent>, name: string) returns (inum: nat, at: nat)
    requires DirOk(d) && CStr(name)
    ensures inum == 0 <==> Trunc(name) !in DirMap(d)
    ensures inum != 0 ==> DirMap(d)[Trunc(name)] == inum && LiveAt(d, at) && NameOf(d[at].name) == Trunc(name)
  {
    MapAt(d, Trunc(name));
    at := 0;
    while at < |d|
      invariant at <= |d|
      invariant forall i: nat :: i < at && LiveAt(d, i) ==> !HasName(d, i, Trunc(name))
    {
      if d[at].inum != 0 {
        var same := SameName(name, d[at].name);
        if same {
          assert LiveAt(d, at) && HasName(d, at, Trunc(name));
          return d[at].inum, at;
        }
      }
      at := at + 1;
    }
    inum := 0;
  }

  /** One entry is put where there was no live one. */
  lemma PutEntry(d: seq<Dirent>, at: nat, e: Dirent, u: seq<Dirent>)
    requires DirOk(d) && at <= |d| && !LiveAt(d, at) && u == (if at < |d| then d[at := e] else d + [e])
    requires NameOf(e.name) !in DirMap(d)
    ensures DirOk(u) && DirMap(u) == if e.inum == 0 then DirMap(d) else DirMap(d)[NameOf(e.name) := e.inum]
  {
    var n := NameOf(e.name);
    MapAt(d, n);
    forall i: nat | LiveAt(d, i) ensures NameOf(d[i].name) != n { assert !HasName(d, i, n); }
    forall i: nat ensures LiveAt(u, i) <==> LiveAt(d, i) || (i == at && e.inum != 0) {}
    var want := if e.inum == 0 then DirMap(d) else DirMap(d)[n := e.inum];
    assert DirOk(u) by {
      forall i: nat, j: nat | LiveAt(u, i) && LiveAt(u, j) && NameOf(u[i].name) == NameOf(u[j].name) ensures i == j {
        assert i != at ==> LiveAt(d, i);
        assert j != at ==> LiveAt(d, j);
      }
    }
    forall x: string ensures (x in DirMap(u) <==> x in want) && (x in want ==> DirMap(u)[x] == want[x]) {
      PutAt(d, at, e, u, x);
    }
  }

  lemma PutAt(d: seq<Dirent>, at: nat, e: Dirent, u: seq<Dirent>, x: string)
    requires DirOk(d) && DirOk(u) && at <= |d| && !LiveAt(d, at) && u == (if at < |d| then d[at := e] else d + [e])
    ensures e.inum != 0 && x == NameOf(e.name) ==> x in DirMap(u) && DirMap(u)[x] == e.inum
    ensures !(e.inum != 0 && x == NameOf(e.name)) ==>
      (x in DirMap(u) <==> x in DirMap(d)) && (x in DirMap(d) ==> DirMap(u)[x] == DirMap(d)[x])
  {
    MapAt(d, x);
    MapAt(u, x);
    if e.inum != 0 && x == NameOf(e.name) {
      assert LiveAt(u, at) && HasName(u, at, x);
    } else {
      if x in DirMap(d) {
        var i: nat :| LiveAt(d, i) && HasName(d, i, x);
        assert LiveAt(u, i) && HasName(u, i, x);
      }
      if x in DirMap(u) {
        var i: nat :| LiveAt(u, i) && HasName(u, i, x);
        assert LiveAt(d, i) && HasName(d, i, x);
      }
    }
  }

  /** The map after dirlink stored the low 16 bits of inum under a name that was not there. */
  function Recorded(m: map<string, nat>, name: string, inum: nat): map<string, nat> {
    if inum % 0x1_0000 == 0 then m else m[name := inum % 0x1_0000]
  }

  /** The name leads to the inode that was linked if and only if its number fits 16 bits and is not 0. */
  lemma RecordedExact(m: map<string, nat>, name: string, inum: nat)
    requires name !in m
    ensures Recorded(m, name, inum) == m[name := inum] <==> 0 < inum < 0x1_0000
  {
    assert m[name := inum][name] == inum;
    assert inum % 0x1_0000 != 0 ==> Recorded(m, name, inum)[name] == inum % 0x1_0000;
  }

  /** Inode 0x1_0001 is recorded as inode 1, and inode 0x1_0000 not at all. */
  lemma RecordedFails(m: map<string, nat>, name: string)
    requires name !in m
    ensures Recorded(m, name, 0x1_0001) == m[name := 1] != m[name := 0x1_0001]
    ensures Recorded(m, name, 0x1_0000) == m != m[name := 0x1_0000]
  {
    assert m[name := 1][name] != m[name := 0x1_0001][name];
    assert name in m[name := 0x1_0000];
  }

  /** dirlink: -1 exactly when the name is there; else the map gets the name, with the inode number as it was given if
      and only if that is not 0 and fits 16 bits. */
  method Dirlink(d: seq<Dirent>, name: string, inum: nat) returns (u: seq<Dirent>, r: int)
    requires DirOk(d) && CStr(name)
    ensures DirOk(u) && (r == -1 || r == 0) && (r == -1 <==> Trunc(name) in DirMap(d))
    ensures r == -1 ==> u == d
    ensures r == 0 ==> DirMap(u) == Recorded(DirMap(d), Trunc(name), inum)
    ensures r == 0 ==> (DirMap(u) == DirMap(d)[Trunc(name) := inum] <==> 0 < inum < 0x1_0000)
  {
    var ip, at := Dirlookup(d, name);
    if ip != 0 { return d, -1; }
    at := 0;
    while at < |d| && d[at].inum != 0
      invariant at <= |d|
    {
      at := at + 1;
    }
    var e := Dirent(inum % 0x1_0000, Pad(name));
    PadName(name);
    u := if at < |d| then d[at := e] else d + [e];
    PutEntry(d, at, e, u);
    RecordedExact(DirMap(d), Trunc(name), inum);
    r := 0;
  }

  /** Clearing an entry, as unlink does, removes its name and no other. */
  lemma ClearEntry(d: seq<Dirent>, at: nat, e: Dirent)
    requires DirOk(d) && LiveAt(d, at) && e.inum == 0
    ensures DirOk(d[at := e]) && DirMap(d[at := e]) == DirMap(d) - {NameOf(d[at].name)}
  {
    var u, n := d[at := e], NameOf(d[at].name);
    forall i: nat ensures LiveAt(u, i) <==> LiveAt(d, i) && i != at {}
    assert DirOk(u) by {
      forall i: nat, j: nat | LiveAt(u, i) && LiveAt(u, j) && NameOf(u[i].name) == NameOf(u[j].name) ensures i == j {
        assert LiveAt(d, i) && LiveAt(d, j);
      }
    }
    forall x: string ensures (x in DirMap(u) <==> x in DirMap(d) && x != n) &&
      (x in DirMap(u) ==> DirMap(u)[x] == DirMap(d)[x]) {
      ClearAt(d, at, e, x);
    }
  }

  lemma ClearAt(d: seq<Dirent>, at: nat, e: Dirent, x: string)
    requires DirOk(d) && LiveAt(d, at) && DirOk(d[at := e]) && e.inum == 0
    ensures var u := d[at := e];
      (x in DirMap(u) <==> x in DirMap(d) && x != NameOf(d[at].name)) &&
      (x in DirMap(u) ==> DirMap(u)[x] == DirMap(d)[x])
  {
    var u := d[at := e];
    MapAt(d, x);
    MapAt(u, x);
    if x in DirMap(d) && x != NameOf(d[at].name) {
      var i: nat :| LiveAt(d, i) && HasName(d, i, x);
      assert LiveAt(u, i) && HasName(u, i, x);
    }
    if x in DirMap(u) {
      var i: nat :| LiveAt(u, i) && HasName(u, i, x);
      assert LiveAt(d, i) && HasName(d, i, x);
    }
  }
}
