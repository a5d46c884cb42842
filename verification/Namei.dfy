/** Path names (kernel/fs.c): skipelem, the table of in-memory inodes, and namex. One device; directories do
    not change while a path is walked. */
module Namei {
  import opened Basics
  import opened Directory

  // ---------------------------------------------------------------- path elements

  /** The text cut at every slash, empty pieces included. */
  function Pieces(p: string): (r: seq<string>)
    ensures |r| > 0
  {
    if p == "" then [""] else
    var t := Pieces(p[1..]);
    if p[0] == '/' then [""] + t else [[p[0]] + t[0]] + t[1..]
  }

  function NonEmpty(s: seq<string>): seq<string> {
    if s == [] then [] else if s[0] == "" then NonEmpty(s[1..]) else [s[0]] + NonEmpty(s[1..])
  }

  /** The elements of a path. */
  function Elements(p: string): seq<string> { NonEmpty(Pieces(p)) }

  lemma SlashFirst(p: string)
    requires p != "" && p[0] == '/'
    ensures Elements(p) == Elements(p[1..])
  {
    assert ([""] + Pieces(p[1..]))[1..] == Pieces(p[1..]);
  }

  lemma {:induction false} PiecesAfter(e: string, r: string)
    requires '/' !in e
    ensures Pieces(e + r) == [e + Pieces(r)[0]] + Pieces(r)[1..]
  {
    if e == "" {
      assert e + r == r && e + Pieces(r)[0] == Pieces(r)[0];
      assert Pieces(r) == [Pieces(r)[0]] + Pieces(r)[1..];
    } else {
      PiecesAfter(e[1..], r);
      assert (e + r)[1..] == e[1..] + r && (e + r)[0] == e[0];
      assert [e[0]] + (e[1..] + Pieces(r)[0]) == e + Pieces(r)[0];
    }
  }

  /** An element, then a slash or the end. */
  lemma ElementFirst(e: string, r: string)
    requires '/' !in e && e != "" && (r == "" || r[0] == '/')
    ensures Elements(e + r) == [e] + Elements(r)
  {
    PiecesAfter(e, r);
    var t := Pieces(r);
    assert t[0] == "" && e + t[0] == e;
    assert NonEmpty(t) == NonEmpty(t[1..]);
    assert ([e] + t[1..])[1..] == t[1..];
  }

  /** while(*path == '/') path++; */
  method SkipSlashes(path: string, i: nat) returns (next: nat)
    requires i <= |path|
    ensures i <= next <= |path| && Elements(path[next..]) == Elements(path[i..]) &&
      (next == |path| || path[next] != '/')
  {
    next := i;
    while next < |path| && path[next] == '/'
      invariant i <= next <= |path| && Elements(path[next..]) == Elements(path[i..])
    {
      SlashFirst(path[next..]);
      assert path[next..][1..] == path[next + 1..];
      next := next + 1;
    }
  }

  /** The end of the element that starts at i. */
  method SkipWord(path: string, i: nat) returns (next: nat)
    requires i < |path| && path[i] != '/'
    ensures i < next <= |path| && Elements(path[i..]) == [path[i..next]] + Elements(path[next..])
  {
    next := i + 1;
    while next < |path| && path[next] != '/'
      invariant i < next <= |path| && '/' !in path[i..next]
    {
      next := next + 1;
    }
    assert path[i..] == path[i..next] + path[next..];
    ElementFirst(path[i..next], path[next..]);
  }

  /** skipelem from position i: the next element truncated, and where the rest begins; nothing exactly when no
      element is left. */
  method Skipelem(path: string, i: nat) returns (found: bool, name: string, next: nat)
    requires i <= |path| && CStr(path)
    ensures (found <==> Elements(path[i..]) != []) && i <= next <= |path|
    ensures found ==> i < next && (next == |path| || path[next] != '/') && CStr(name)
    ensures found ==>
      Elements(path[i..]) == [Elements(path[i..])[0]] + Elements(path[next..]) && name == Trunc(Elements(path[i..])[0])
  {
    name := "";
    var s := SkipSlashes(path, i);
    if s == |path| {
      assert path[s..] == "" && Pieces("") == [""];
      return false, name, s;
    }
    var e := SkipWord(path, s);
    name := Trunc(path[s..e]);
    next := SkipSlashes(path, e);
    found := true;
  }

  function Truncs(s: seq<string>): (r: seq<string>)
    ensures |r| == |s|
  {
    if s == [] then [] else [Trunc(s[0])] + Truncs(s[1..])
  }

  /** Calling skipelem again and again splits the path at its slashes and truncates each element. */
  method SkipAll(path: string) returns (names: seq<string>)
    requires CStr(path)
    ensures names == Truncs(Elements(path))
  {
    names := [];
    var found, name, i := Skipelem(path, 0);
    assert path[0..] == path;
    ghost var left := Elements(path);
    while found
      invariant i <= |path| && names + Truncs(left) == Truncs(Elements(path))
      invariant found ==> left != [] && name == Trunc(left[0]) && left[1..] == Elements(path[i..])
      invariant !found ==> left == []
      decreases |left|
    {
      names := names + [name];
      left := left[1..];
      found, name, i := Skipelem(path, i);
    }
  }

  // ---------------------------------------------------------------- the inode table

  datatype Slot = Slot(inum: nat, ref: nat)

  /** At most one slot in use per inode. */
  ghost predicate Unique(t: seq<Slot>) {
    forall i, j :: 0 <= i < |t| && 0 <= j < |t| && t[i].ref > 0 && t[j].ref > 0 && t[i].inum == t[j].inum ==> i == j
  }

  function Part(s: Slot, inum: nat): nat { if s.inum == inum then s.ref else 0 }

  /** All references to an inode. */
  function Refs(t: seq<Slot>, inum: nat): nat {
    if t == [] then 0 else Refs(t[..|t| - 1], inum) + Part(t[|t| - 1], inum)
  }

  lemma {:induction false} RefsUpdate(t: seq<Slot>, i: nat, s: Slot, inum: nat)
    requires i < |t|
    ensures Refs(t[i := s], inum) == Refs(t, inum) - Part(t[i], inum) + Part(s, inum)
  {
    var n := |t| - 1;
    if i < n {
      RefsUpdate(t[..n], i, s, inum);
      assert t[i := s][..n] == t[..n][i := s];
    } else {
      assert t[i := s][..n] == t[..n];
    }
  }

  /** The references to inum are one more or one fewer, all others as before. */
  ghost predicate Shifted(t: seq<Slot>, u: seq<Slot>, inum: nat, d: int) {
    |u| == |t| && forall n: nat :: Refs(u, n) == Refs(t, n) + if n == inum then d else 0
  }

  lemma SlotChanged(t: seq<Slot>, i: nat, s: Slot)
    requires i < |t| && (s.inum == t[i].inum || t[i].ref == 0)
    ensures Shifted(t, t[i := s], s.inum, s.ref - t[i].ref)
  {
    forall n: nat ensures Refs(t[i := s], n) == Refs(t, n) + if n == s.inum then s.ref - t[i].ref else 0 {
      RefsUpdate(t, i, s, n);
    }
  }

  /** iget: the slot that has the inode, or an empty one; one reference more. It panics exactly when the inode is not
      in the table and no slot is empty. */
  method Iget(t: seq<Slot>, inum: nat) returns (u: seq<Slot>, ip: nat, panic: bool)
    requires Unique(t)
    ensures panic <==> forall i :: 0 <= i < |t| ==> t[i].ref > 0 && t[i].inum != inum
    ensures panic ==> u == t
    ensures !panic ==> Unique(u) && Shifted(t, u, inum, 1) && ip < |u| && u[ip].inum == inum && u[ip].ref > 0
    ensures !panic ==> forall i :: 0 <= i < |t| && t[i].ref > 0 ==>
      u[i] == if i == ip then Slot(t[i].inum, t[i].ref + 1) else t[i]
  {
    ip := 0;
    var empty: nat := |t|;
    while ip < |t|
      invariant ip <= |t| && forall i :: 0 <= i < ip ==> !(t[i].ref > 0 && t[i].inum == inum)
      invariant empty == |t| || (empty < ip && t[empty].ref == 0)
      invariant empty == |t| ==> forall i :: 0 <= i < ip ==> t[i].ref > 0
    {
      if t[ip].ref > 0 && t[ip].inum == inum {
        SlotChanged(t, ip, Slot(inum, t[ip].ref + 1));
        return t[ip := Slot(inum, t[ip].ref + 1)], ip, false;
      }
      if empty == |t| && t[ip].ref == 0 { empty := ip; }
      ip := ip + 1;
    }
    if empty == |t| { return t, 0, true; }
    SlotChanged(t, empty, Slot(inum, 1));
    return t[empty := Slot(inum, 1)], empty, false;
  }

  /** idup. */
  method Idup(t: seq<Slot>, ip: nat) returns (u: seq<Slot>)
    requires Unique(t) && ip < |t| && t[ip].ref > 0
    ensures Unique(u) && Shifted(t, u, t[ip].inum, 1) && u[ip].inum == t[ip].inum && u[ip].ref > 0
  {
    SlotChanged(t, ip, Slot(t[ip].inum, t[ip].ref + 1));
    u := t[ip := Slot(t[ip].inum, t[ip].ref + 1)];
  }

  /** iput, as far as the table goes. */
  method Iput(t: seq<Slot>, ip: nat) returns (u: seq<Slot>)
    requires Unique(t) && ip < |t| && t[ip].ref > 0
    ensures Unique(u) && Shifted(t, u, t[ip].inum, -1)
    ensures u == t[ip := Slot(t[ip].inum, t[ip].ref - 1)]
  {
    SlotChanged(t, ip, Slot(t[ip].inum, t[ip].ref - 1));
    u := t[ip := Slot(t[ip].inum, t[ip].ref - 1)];
  }

  // ---------------------------------------------------------------- namex

  const ROOTINO: nat := 1

  datatype Node = Dir(entries: seq<Dirent>) | File

  /** Every directory is well formed and every entry names an inode. */
  ghost predicate TreeOk(nodes: map<nat, Node>) {
    forall n :: n in nodes && nodes[n].Dir? ==>
      DirOk(nodes[n].entries) && forall x :: x in DirMap(nodes[n].entries) ==> DirMap(nodes[n].entries)[x] in nodes
  }

  /** One step down: the inode that a directory has under a name. */
  function Step(nodes: map<nat, Node>, cur: nat, name: string): Option<nat> {
    if cur in nodes && nodes[cur].Dir? &&
      name in DirMap(nodes[cur].entries) then Some(DirMap(nodes[cur].entries)[name]) else None
  }

  /** What a path means: from cur, step by step. */
  function Resolve(nodes: map<nat, Node>, cur: nat, names: seq<string>): Option<nat>
    decreases |names|
  {
    if names == [] then Some(cur) else
    var n := Step(nodes, cur, names[0]);
    if n.None? then None else Resolve(nodes, n.value, names[1..])
  }

  /** The directory that holds, or would hold, the last element. */
  function ResolveParent(nodes: map<nat, Node>, cur: nat, names: seq<string>): Option<nat> {
    if names == [] then None else
    var d := Resolve(nodes, cur, names[..|names| - 1]);
    if d.Some? && d.value in nodes && nodes[d.value].Dir? then d else None
  }

  lemma ParentStep(nodes: map<nat, Node>, cur: nat, names: seq<string>)
    requires |names| >= 2
    ensures ResolveParent(nodes, cur, names) ==
      var n := Step(nodes, cur, names[0]); if n.None? then None else ResolveParent(nodes, n.value, names[1..])
  {
    assert names[..|names| - 1][1..] == names[1..][..|names[1..]| - 1];
  }

  /** The net effect on the table: one reference for the inode returned, none on failure. */
  ghost predicate NetRefs(t: seq<Slot>, u: seq<Slot>, r: Option<nat>) {
    match r
    case Some(inum) => Shifted(t, u, inum, 1)
    case None => |u| == |t| && forall n: nat :: Refs(u, n) == Refs(t, n)
  }

  /** ip holds the one extra reference. */
  ghost predicate Holding(t: seq<Slot>, u: seq<Slot>, ip: nat, cur: nat) {
    Unique(u) && Shifted(t, u, cur, 1) && ip < |u| && u[ip].inum == cur && u[ip].ref > 0
  }

  lemma MovedOn(t: seq<Slot>, u: seq<Slot>, v: seq<Slot>, w: seq<Slot>, cur: nat, n: nat)
    requires Shifted(t, u, cur, 1) && Shifted(u, v, n, 1) && Shifted(v, w, cur, -1)
    ensures Shifted(t, w, n, 1)
  {
    forall x: nat ensures Refs(w, x) == Refs(t, x) + if x == n then 1 else 0 {
      assert Refs(v, x) == Refs(u, x) + if x == n then 1 else 0;
    }
  }

  lemma LetGo(t: seq<Slot>, u: seq<Slot>, w: seq<Slot>, cur: nat)
    requires Shifted(t, u, cur, 1) && Shifted(u, w, cur, -1)
    ensures NetRefs(t, w, None)
  {
    forall x: nat ensures Refs(w, x) == Refs(t, x) { assert Refs(u, x) == Refs(t, x) + if x == cur then 1 else 0; }
  }

  /** Every slot is in use. */
  predicate Full(t: seq<Slot>) { forall i :: 0 <= i < |t| ==> t[i].ref > 0 }

  /** dirlookup and iunlockput: from the directory at ip to the inode under the name, or away from it. */
  method Descend(ghost t: seq<Slot>, u: seq<Slot>, nodes: map<nat, Node>, ip: nat, name: string)
    returns (w: seq<Slot>, next: nat, found: bool, panic: bool)
    requires ip < |u| && Holding(t, u, ip, u[ip].inum) && TreeOk(nodes) && CStr(name) && Trunc(name) == name
    requires u[ip].inum in nodes && nodes[u[ip].inum].Dir?
    ensures panic ==> w == u && Full(u)
    ensures !panic ==> (found <==> Step(nodes, u[ip].inum, name).Some?)
    ensures !panic && found ==>
      next < |w| && Holding(t, w, next, w[next].inum) && w[next].inum == Step(nodes, u[ip].inum, name).value &&
      w[next].inum in nodes
    ensures !panic && !found ==> Unique(w) && NetRefs(t, w, None)
  {
    var cur := u[ip].inum;
    var n, at := Dirlookup(nodes[cur].entries, name);
    if n == 0 {
      w := Iput(u, ip);
      LetGo(t, u, w, cur);
      return w, 0, false, false;
    }
    var v;
    v, next, panic := Iget(u, n);
    if panic { return v, next, true, true; }
    w := Iput(v, ip);
    found := true;
    MovedOn(t, u, v, w, cur, n);
  }

  lemma StartsWord(p: string)
    requires p != "" && p[0] != '/'
    ensures Elements(p) != []
  {
  }

  /** The truncated elements left from position i. */
  function Left(path: string, i: nat): seq<string>
    requires i <= |path|
  {
    Truncs(Elements(path[i..]))
  }

  function Want(nodes: map<nat, Node>, cur: nat, names: seq<string>, parent: bool): Option<nat> {
    if parent then ResolveParent(nodes, cur, names) else Resolve(nodes, cur, names)
  }

  /** Stepping down one element leaves the meaning of the rest. */
  lemma WantStep(nodes: map<nat, Node>, cur: nat, names: seq<string>, parent: bool)
    requires names != [] && (parent ==> |names| >= 2)
    ensures Want(nodes, cur, names, parent) ==
      var n := Step(nodes, cur, names[0]); if n.None? then None else Want(nodes, n.value, names[1..], parent)
  {
    if parent { ParentStep(nodes, cur, names); }
  }

  /** A path through something that is not a directory leads nowhere. */
  lemma NotDir(nodes: map<nat, Node>, cur: nat, names: seq<string>, parent: bool)
    requires names != [] && !(cur in nodes && nodes[cur].Dir?)
    ensures Want(nodes, cur, names, parent) == None
  {
    if parent && |names| >= 2 { ParentStep(nodes, cur, names); }
  }

  /** namex: the inode the path means, or the directory of its last element; its net effect on the inode table is one
      reference for the inode returned and nothing on failure. A full table is a panic. */
  method Namex(t: seq<Slot>, nodes: map<nat, Node>, cwd: nat, path: string, parent: bool)
    returns (u: seq<Slot>, r: Option<nat>, name: string, panic: bool, ghost want: Option<nat>)
    requires Unique(t) && TreeOk(nodes) && CStr(path) && cwd < |t| && t[cwd].ref > 0 && t[cwd].inum in nodes &&
      ROOTINO in nodes
    ensures want == Want(nodes, if path != "" &&
      path[0] == '/' then ROOTINO else t[cwd].inum, Truncs(Elements(path)), parent)
    ensures panic ==> Full(u) && (u == t || exists n: nat :: Shifted(t, u, n, 1))
    ensures !panic ==> Unique(u) && NetRefs(t, u, want) && (r.Some? <==> want.Some?)
    ensures !panic && r.Some? ==> r.value < |u| && u[r.value].inum == want.value && u[r.value].ref > 0
    ensures !panic && parent && r.Some? ==> Elements(path) != [] && name == Truncs(Elements(path))[|Elements(path)| - 1]
  {
    var ip: nat, start: nat;
    panic, r, name := false, None, "";
    if path != "" && path[0] == '/' {
      u, ip, panic := Iget(t, ROOTINO);
      start := ROOTINO;
    } else {
      u := Idup(t, cwd);
      ip, start := cwd, t[cwd].inum;
    }
    assert path[0..] == path;
    want := Want(nodes, start, Truncs(Elements(path)), parent);
    if panic { return; }
    u, r, name, panic := WalkPath(t, u, nodes, ip, path, parent);
  }

  method WalkPath(ghost t: seq<Slot>, u0: seq<Slot>, nodes: map<nat, Node>, start: nat, path: string, parent: bool)
    returns (u: seq<Slot>, r: Option<nat>, name: string, panic: bool)
    requires start < |u0| && Holding(t, u0, start, u0[start].inum) && TreeOk(nodes) && CStr(path) &&
      u0[start].inum in nodes
    ensures panic ==> Full(u) && exists n: nat :: Shifted(t, u, n, 1)
    ensures var want := Want(nodes, u0[start].inum, Left(path, 0), parent);
      && (!panic ==> Unique(u) && NetRefs(t, u, want) && (r.Some? <==> want.Some?))
      && (!panic && r.Some? ==> r.value < |u| && u[r.value].inum == want.value && u[r.value].ref > 0)
    ensures !panic && parent && r.Some? ==> Left(path, 0) != [] && name == Left(path, 0)[|Left(path, 0)| - 1]
  {
    ghost var want := Want(nodes, u0[start].inum, Left(path, 0), parent);
    u, r, name, panic := u0, None, "", false;
    var ip: nat, i: nat := start, 0;
    var found;
    while true
      invariant i <= |path| && ip < |u| && Holding(t, u, ip, u[ip].inum) && u[ip].inum in nodes && !panic && r == None
      invariant Want(nodes, u[ip].inum, Left(path, i), parent) == want
      invariant parent && i > 0 ==> Left(path, i) != []
      invariant Left(path, i) != [] ==>
        Left(path, 0) != [] && Left(path, 0)[|Left(path, 0)| - 1] == Left(path, i)[|Left(path, i)| - 1]
      decreases |path| - i
    {
      ghost var names := Left(path, i);
      var next;
      found, name, next := Skipelem(path, i);
      if !found { break; }
      assert names[0] == name && names[1..] == Left(path, next);
      if !nodes[u[ip].inum].Dir? {
        NotDir(nodes, u[ip].inum, names, parent);
        ghost var v := u;
        u := Iput(u, ip);
        LetGo(t, v, u, v[ip].inum);
        return;
      }
      if next < |path| { StartsWord(path[next..]); }
      if parent && next == |path| {
        assert path[next..] == "" && names == [name] && names[..0] == [];
        return u, Some(ip), name, false;
      }
      WantStep(nodes, u[ip].inum, names, parent);
      var more;
      u, ip, more, panic := Descend(t, u, nodes, ip, name);
      if panic || !more { return; }
      i := next;
    }
    if parent {
      ghost var v := u;
      u := Iput(u, ip);
      LetGo(t, v, u, v[ip].inum);
      return;
    }
    r := Some(ip);
  }
}
