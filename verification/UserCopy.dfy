/** Copying between kernel and user memory (kernel/vm.c copyin and copyout). */
module UserCopy {
  import opened Basics
  import opened PageTable

  /** The page walkaddr finds for page v: mapped and for the user, else 0. */
  function UserPage(m: Mem, id: nat, v: nat): nat {
    var e := PteAt(m, id, v);
    if v * PGSIZE < MAXVA && IsValid(e) && e / 16 % 2 == 1 then PageOf(e) else 0
  }

  predicate UserAt(m: Mem, id: nat, a: nat) { UserPage(m, id, a / PGSIZE) != 0 }

  function UserByte(m: Mem, id: nat, a: nat): Byte {
    var p := UserPage(m, id, a / PGSIZE);
    if p in m.data then m.data[p][a % PGSIZE] else 0
  }

  /** n bytes of user memory from va on. */
  function BytesAt(m: Mem, id: nat, va: nat, n: nat): (r: seq<Byte>)
    ensures |r| == n && forall i :: 0 <= i < n ==> r[i] == UserByte(m, id, va + i)
  {
    seq<Byte>(n, (i: int) requires 0 <= i => UserByte(m, id, va + i))
  }

  /** User pages are pages with bytes. */
  ghost predicate HasBytes(m: Mem, id: nat) { forall v: nat :: UserPage(m, id, v) != 0 ==>
    UserPage(m, id, v) in m.data }

  /** No two user pages of the space share a frame. */
  ghost predicate Injective(m: Mem, id: nat) {
    forall v: nat, w: nat :: UserPage(m, id, v) == UserPage(m, id, w) != 0 ==> v == w
  }

  ghost predicate AllUser(m: Mem, id: nat, va: nat, n: nat) { forall a: nat :: va <= a < va + n ==> UserAt(m, id, a) }

  /** walkaddr. */
  method Walkaddr(m: Mem, ghost g: Owners, id: nat, va: nat) returns (p: nat)
    requires VmOk(m, g) && id in m.roots
    ensures p == UserPage(m, id, va / PGSIZE)
  {
    if va >= MAXVA { return 0; }
    var u, h, w := Walk(m, g, id, va, false);
    if !w.At? { return 0; }
    TablesOwned(m, g, Leaf(id, va / PGSIZE));
    var pte := m.tables[w.table][I0(va / PGSIZE)];
    if !IsValid(pte) { return 0; }
    if pte / 16 % 2 == 0 { return 0; }
    p := PageOf(pte);
  }

  function Patch(b: Page, at: nat, x: seq<Byte>): Page
    requires at + |x| <= PGSIZE
  {
    b[..at] + x + b[at + |x|..]
  }

  function Poked(m: Mem, p: nat, at: nat, x: seq<Byte>): Mem
    requires p in m.data && at + |x| <= PGSIZE
  {
    m.(data := m.data[p := Patch(m.data[p], at, x)])
  }

  lemma SameTranslation(m: Mem, g: Owners, u: Mem)
    requires VmOk(m, g) && u == m.(data := u.data) && m.data.Keys <= u.data.Keys
    ensures VmOk(u, g) && forall id: nat, v: nat :: UserPage(u, id, v) == UserPage(m, id, v)
  {
    RefsKept(m, g, u, g);
    forall x: nat ensures PageOk(u, g, x) { assert PageOk(m, g, x); }
    forall id: nat, v: nat
      ensures UserPage(u, id, v) == UserPage(m, id, v) { assert PteAt(u, id, v) == PteAt(m, id, v); }
  }

  /** Writing x at va, within a page, changes those bytes of the space and no others. */
  lemma PokeByte(m: Mem, id: nat, va: nat, x: seq<Byte>, a: nat)
    requires Injective(m, id) && va % PGSIZE + |x| <= PGSIZE && UserPage(m, id, va / PGSIZE) != 0 &&
      UserPage(m, id, va / PGSIZE) in m.data
    requires UserAt(m, id, a)
    ensures var u := Poked(m, UserPage(m, id, va / PGSIZE), va % PGSIZE, x);
      UserByte(u, id, a) == if va <= a < va + |x| then x[a - va] else UserByte(m, id, a)
  {
    var u := Poked(m, UserPage(m, id, va / PGSIZE), va % PGSIZE, x);
    assert PteAt(u, id, a / PGSIZE) == PteAt(m, id, a / PGSIZE);
    if a / PGSIZE == va / PGSIZE {
      assert a - va == a % PGSIZE - va % PGSIZE;
    } else {
      assert !(va <= a < va + |x|);
    }
  }

  function Min(a: nat, b: nat): nat { if a < b then a else b }

  /** The first k bytes of src are in user memory at va, and no other byte of the space has changed. */
  ghost predicate Stored(m: Mem, u: Mem, id: nat, va: nat, src: seq<Byte>, k: nat) {
    && u == m.(data := u.data) && m.data.Keys <= u.data.Keys && k <= |src|
    && forall a: nat :: UserAt(m, id, a) ==>
      UserByte(u, id, a) == if va <= a < va + k then src[a - va] else UserByte(m, id, a)
  }

  lemma StoredMore(m: Mem, g: Owners, u: Mem, id: nat, va: nat, src: seq<Byte>, k: nat, n: nat)
    requires VmOk(m, g) && Injective(m, id) && HasBytes(m, id) && Stored(m, u, id, va, src, k) && k + n <= |src|
    requires (va + k) % PGSIZE + n <= PGSIZE && UserAt(m, id, va + k)
    ensures var p := UserPage(m, id, (va + k) / PGSIZE);
      p in u.data && Stored(m, Poked(u, p, (va + k) % PGSIZE, src[k..k + n]), id, va, src, k + n)
  {
    SameTranslation(m, g, u);
    var p, x := UserPage(m, id, (va + k) / PGSIZE), src[k..k + n];
    var w := Poked(u, p, (va + k) % PGSIZE, x);
    forall a: nat | UserAt(m, id, a)
      ensures UserByte(w, id, a) == if va <= a < va + (k + n) then src[a - va] else UserByte(m, id, a) {
      PokeByte(u, id, va + k, x, a);
    }
  }

  /** The bytes of a page-sized piece are user bytes if its first one is. */
  lemma PieceUser(m: Mem, id: nat, va: nat, n: nat)
    requires va % PGSIZE + n <= PGSIZE
    ensures 0 < n ==> (AllUser(m, id, va, n) <==> UserAt(m, id, va))
  {
    forall a: nat | va <= a < va + n ensures a / PGSIZE == va / PGSIZE {}
    assert 0 < n && AllUser(m, id, va, n) ==> UserAt(m, id, va);
  }

  /** copyout: it succeeds exactly when every byte of the range is mapped for the user, and then exactly these bytes
      of the space are src; otherwise a whole number of pages' worth before the first missing page is stored. */
  method Copyout(m0: Mem, ghost g: Owners, id: nat, va: nat, src: seq<Byte>) returns (m: Mem, ok: bool, ghost k: nat)
    requires VmOk(m0, g) && id in m0.roots && Injective(m0, id) && HasBytes(m0, id)
    ensures VmOk(m, g) && Stored(m0, m, id, va, src, k)
    ensures ok <==> AllUser(m0, id, va, |src|)
    ensures ok ==> k == |src|
  {
    m, k := m0, 0;
    var i: nat := 0;
    while i < |src|
      invariant i <= |src| && k == i && VmOk(m, g) && Stored(m0, m, id, va, src, i) && AllUser(m0, id, va, i)
    {
      SameTranslation(m0, g, m);
      var p := Walkaddr(m, g, id, va + i);
      var at := (va + i) % PGSIZE;
      var n := Min(PGSIZE - at, |src| - i);
      PieceUser(m0, id, va + i, n);
      if p == 0 {
        assert !UserAt(m0, id, va + i);
        return m, false, k;
      }
      StoredMore(m0, g, m, id, va, src, i, n);
      var u := Poked(m, p, at, src[i..i + n]);
      SameTranslation(m0, g, u);
      m, i, k := u, i + n, i + n;
    }
    ok := true;
  }

  lemma PieceBytes(m: Mem, id: nat, va: nat, n: nat)
    requires va % PGSIZE + n <= PGSIZE && UserPage(m, id, va / PGSIZE) in m.data
    ensures m.data[UserPage(m, id, va / PGSIZE)][va % PGSIZE..va % PGSIZE + n] == BytesAt(m, id, va, n)
  {
    forall i: nat | i < n
      ensures BytesAt(m, id, va, n)[i] == m.data[UserPage(m, id, va / PGSIZE)][va % PGSIZE..va % PGSIZE + n][i] {
      assert (va + i) / PGSIZE == va / PGSIZE && (va + i) % PGSIZE == va % PGSIZE + i;
    }
  }

  /** copyin: it succeeds exactly when every byte of the range is mapped for the user, and returns them. */
  method Copyin(m: Mem, ghost g: Owners, id: nat, va: nat, len: nat) returns (out: seq<Byte>, ok: bool)
    requires VmOk(m, g) && id in m.roots && HasBytes(m, id)
    ensures ok <==> AllUser(m, id, va, len)
    ensures ok ==> out == BytesAt(m, id, va, len)
  {
    out := [];
    while |out| < len
      invariant |out| <= len && out == BytesAt(m, id, va, |out|) && AllUser(m, id, va, |out|)
      decreases len - |out|
    {
      var a := va + |out|;
      var p := Walkaddr(m, g, id, a);
      var n := Min(PGSIZE - a % PGSIZE, len - |out|);
      PieceUser(m, id, a, n);
      if p == 0 {
        assert !UserAt(m, id, a);
        return out, false;
      }
      PieceBytes(m, id, a, n);
      out := out + m.data[p][a % PGSIZE..a % PGSIZE + n];
    }
    ok := true;
  }

  /** What copyout stored, copyin returns, across page boundaries. */
  lemma CopyRoundTrip(m: Mem, g: Owners, u: Mem, id: nat, va: nat, src: seq<Byte>)
    requires VmOk(m, g) && AllUser(m, id, va, |src|) && Stored(m, u, id, va, src, |src|)
    ensures AllUser(u, id, va, |src|) && BytesAt(u, id, va, |src|) == src
  {
    SameTranslation(m, g, u);
    forall a: nat | va <= a < va + |src| ensures UserAt(u, id, a) && UserByte(u, id, a) == src[a - va] {
      assert UserAt(m, id, a);
    }
  }
}
