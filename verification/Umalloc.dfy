/** The Kernighan and Ritchie allocator of user/umalloc.c (The C Programming Language, 2nd edition,
    section 8.7). Addresses count headers, so pointer arithmetic on Header* is integer arithmetic. */
module Umalloc {
  const HEADER: nat := 16  // sizeof(Header)
  const MINUNITS: nat := 4096

  /** The blocks of `ring` ascend through the address space from `base` and do not overlap. */
  ghost predicate Ascends(size: map<nat, nat>, ring: seq<nat>, base: nat) {
    && |ring| > 0 && ring[0] == base
    && (forall i :: 0 <= i < |ring| ==> ring[i] in size && (size[ring[i]] == 0 <==> i == 0))
    && (forall i, j :: 0 <= i < j < |ring| ==> ring[i] < ring[j] && ring[i] + size[ring[i]] <= ring[j])
  }

  /** Following the pointers from ring[0] visits `ring` in order and comes back. */
  ghost predicate Links(ptr: map<nat, nat>, ring: seq<nat>) {
    forall i {:trigger LinkOk(ptr, ring, i)} :: 0 <= i < |ring| ==> LinkOk(ptr, ring, i)
  }

  predicate LinkOk(ptr: map<nat, nat>, ring: seq<nat>, i: nat)
    requires i < |ring|
  {
    ring[i] in ptr && ptr[ring[i]] == Next(ring, i)
  }

  /** Neighbours touch at most at the positions in `t`. */
  ghost predicate Gaps(size: map<nat, nat>, ring: seq<nat>, t: set<nat>)
    requires forall i :: 0 <= i < |ring| ==> ring[i] in size
  {
    forall i {:trigger Next(ring, i)} :: 0 <= i < |ring| - 1 && i !in t ==> ring[i] + size[ring[i]] != Next(ring, i)
  }

  /** The two large predicates are folded; naming Key(0) in a proof opens them. */
  function Key(z: int): int { z }

  ghost predicate LooseBody(size: map<nat, nat>, ptr: map<nat, nat>, ring: seq<nat>, base: nat, t: set<nat>) {
    Ascends(size, ring, base) && Links(ptr, ring) && Gaps(size, ring, t)
  }

  /** `ring` is the free list, where ring[i] and ring[i+1] may touch only for i in `t`. */
  ghost predicate Loose(size: map<nat, nat>, ptr: map<nat, nat>, ring: seq<nat>, base: nat, t: set<nat>) {
    |ring| > 0 && ring[0] == base && forall z: int {:trigger Key(z)} :: z == 0 ==> LooseBody(size, ptr, ring, base, t)
  }

  function Next(ring: seq<nat>, i: nat): nat
    requires i < |ring|
  {
    if i == |ring| - 1 then ring[0] else ring[i + 1]
  }

  /** The header of a free block or of a block given to the program. */
  predicate IsBlock(ring: seq<nat>, live: map<nat, nat>, h: nat) {
    h in live || (h in ring && h != ring[0])
  }

  ghost predicate OwnerBody(size: map<nat, nat>, ring: seq<nat>, live: map<nat, nat>, owner: map<nat, nat>)
    requires |ring| > 0
  {
    && (forall h :: h in live ==> h in size && size[h] == live[h] > 0 && h !in ring)
    && (forall x :: x in owner ==> IsBlock(ring, live, owner[x]) && Covers(size, owner[x], x))
    && (forall h, x :: IsBlock(ring, live, h) && Covers(size, h, x) ==> x in owner && owner[x] == h)
  }

  /** Every unit that sbrk gave belongs to exactly one free or live block, and blocks have no others. */
  ghost predicate OwnerOk(size: map<nat, nat>, ring: seq<nat>, live: map<nat, nat>, owner: map<nat, nat>) {
    |ring| > 0 && forall z: int {:trigger Key(z)} :: z == 0 ==> OwnerBody(size, ring, live, owner)
  }

  lemma RingFacts(size: map<nat, nat>, ptr: map<nat, nat>, ring: seq<nat>, base: nat, t: set<nat>)
    requires Loose(size, ptr, ring, base, t)
    ensures forall i :: 0 <= i < |ring| ==> ring[i] in size && (size[ring[i]] == 0 <==> i == 0)
    ensures (forall i, j :: 0 <= i < j < |ring| ==> ring[i] < ring[j]) && Links(ptr, ring)
  {
    assert Key(0) == 0;
  }

  lemma LiveFacts(size: map<nat, nat>, ring: seq<nat>, live: map<nat, nat>, owner: map<nat, nat>, b: nat)
    requires OwnerOk(size, ring, live, owner) && b in live
    ensures b in size && size[b] == live[b] > 0 && b !in ring
  {
    assert Key(0) == 0;
  }

  /** Unit x is inside the block with header h. */
  predicate Covers(size: map<nat, nat>, h: nat, x: nat) {
    h in size && h <= x < h + size[h]
  }

  // ---------------------------------------------------------------- inserting and joining blocks

  function Inserted(ring: seq<nat>, j: nat, b: nat): (r: seq<nat>)
    requires j < |ring|
    ensures |r| == |ring| + 1
    ensures forall i :: 0 <= i < |r| ==> r[i] == if i <= j then ring[i] else if i == j + 1 then b else ring[i - 1]
  {
    ring[..j + 1] + [b] + ring[j + 1..]
  }

  function Dropped(ring: seq<nat>, k: nat): (r: seq<nat>)
    requires k < |ring|
    ensures |r| == |ring| - 1 && forall i :: 0 <= i < |r| ==> r[i] == if i < k then ring[i] else ring[i + 1]
  {
    ring[..k] + ring[k + 1..]
  }

  lemma InsertedMembers(ring: seq<nat>, j: nat, b: nat, x: nat)
    requires j < |ring|
    ensures x in Inserted(ring, j, b) <==> x in ring || x == b
  {
    var r := Inserted(ring, j, b);
    assert r[j + 1] == b;
    if x in ring {
      var i :| 0 <= i < |ring| && ring[i] == x;
      assert r[if i <= j then i else i + 1] == x;
    }
  }

  lemma DroppedMembers(ring: seq<nat>, k: nat, x: nat)
    requires k < |ring| && forall i, j :: 0 <= i < j < |ring| ==> ring[i] != ring[j]
    ensures x in Dropped(ring, k) <==> x in ring && x != ring[k]
  {
    var r := Dropped(ring, k);
    if x in ring && x != ring[k] {
      var i :| 0 <= i < |ring| && ring[i] == x;
      assert r[if i < k then i else i - 1] == x;
    }
  }

  /** Position j is where a block at address b belongs: after ring[j], before the next. */
  predicate Place(ring: seq<nat>, b: nat, j: nat) {
    j < |ring| && ring[j] < b && (j + 1 < |ring| ==> b < ring[j + 1])
  }

  lemma InsertLinks(ptr: map<nat, nat>, ring: seq<nat>, j: nat, b: nat)
    requires Links(ptr, ring) && j < |ring| && b !in ring && forall i, k :: 0 <= i < k < |ring| ==> ring[i] != ring[k]
    ensures ring[j] in ptr && Links(ptr[b := ptr[ring[j]]][ring[j] := b], Inserted(ring, j, b))
  {
    assert LinkOk(ptr, ring, j);
    var r := Inserted(ring, j, b);
    var p := ptr[b := ptr[ring[j]]][ring[j] := b];
    forall i | 0 <= i < |r| ensures LinkOk(p, r, i) {
      assert LinkOk(ptr, ring, if i <= j then i else if i == j + 1 then j else i - 1);
    }
  }

  lemma InsertGaps(size: map<nat, nat>, ring: seq<nat>, j: nat, b: nat)
    requires (forall i :: 0 <= i < |ring| ==> ring[i] in size) && Gaps(size, ring, {}) && j < |ring| && b in size
    ensures Gaps(size, Inserted(ring, j, b), {j, j + 1})
  {
    var r := Inserted(ring, j, b);
    forall i | 0 <= i < |r| - 1 && i !in {j, j + 1} ensures r[i] + size[r[i]] != Next(r, i) {
      var o := if i <= j then i else i - 1;
      assert ring[o] + size[ring[o]] != Next(ring, o);
    }
  }

  lemma InsertAscends(size: map<nat, nat>, ring: seq<nat>, base: nat, j: nat, b: nat)
    requires Ascends(size, ring, base) && Place(ring, b, j) && b in size && size[b] > 0
    requires ring[j] + size[ring[j]] <= b && (j + 1 < |ring| ==> b + size[b] <= ring[j + 1])
    ensures Ascends(size, Inserted(ring, j, b), base)
  {
    var r := Inserted(ring, j, b);
    forall i, k | 0 <= i < k < |r| ensures r[i] < r[k] && r[i] + size[r[i]] <= r[k] {
      if i <= j < k - 1 {
        assert r[i] == ring[i] && r[k] == ring[k - 1];
      }
    }
    forall i | 0 <= i < |r| ensures r[i] in size && (size[r[i]] == 0 <==> i == 0) {
    }
  }

  /** Linking a live block into its place, before it is joined to its neighbours. */
  lemma InsertRing(size: map<nat, nat>, ptr: map<nat, nat>, ring: seq<nat>, base: nat, j: nat, b: nat)
    requires Loose(size, ptr, ring, base, {}) && Place(ring, b, j) && b in size && size[b] > 0 && ring[j] in size
    requires ring[j] + size[ring[j]] <= b && (j + 1 < |ring| ==> b + size[b] <= ring[j + 1])
    ensures ring[j] in ptr && Loose(size, ptr[b := ptr[ring[j]]][ring[j] := b], Inserted(ring, j, b), base, {j, j + 1})
  {
    assert Key(0) == 0;
    InsertLinks(ptr, ring, j, b);
    InsertGaps(size, ring, j, b);
    InsertAscends(size, ring, base, j, b);
    assert LooseBody(size, ptr[b := ptr[ring[j]]][ring[j] := b], Inserted(ring, j, b), base, {j, j + 1});
  }

  lemma InsertOwner(size: map<nat, nat>, ring: seq<nat>, live: map<nat, nat>, owner: map<nat, nat>, j: nat, b: nat)
    requires j < |ring| && b in live && b != ring[0] && OwnerOk(size, ring, live, owner)
    ensures OwnerOk(size, Inserted(ring, j, b), live - {b}, owner)
  {
    assert Key(0) == 0;
    var r := Inserted(ring, j, b);
    forall h ensures IsBlock(r, live - {b}, h) <==> IsBlock(ring, live, h) {
      InsertedMembers(ring, j, b, h);
    }
    forall h | h in live - {b} ensures h !in r { InsertedMembers(ring, j, b, h); }
    assert OwnerBody(size, r, live - {b}, owner);
  }

  lemma JoinLinks(ptr: map<nat, nat>, ring: seq<nat>, k: nat)
    requires Links(ptr, ring) && k < |ring| - 1 && forall i, j :: 0 <= i < j < |ring| ==> ring[i] != ring[j]
    ensures ring[k + 1] in ptr && Links(ptr[ring[k] := ptr[ring[k + 1]]], Dropped(ring, k + 1))
  {
    assert LinkOk(ptr, ring, k + 1);
    var d := Dropped(ring, k + 1);
    var p := ptr[ring[k] := ptr[ring[k + 1]]];
    forall i | 0 <= i < |d| ensures LinkOk(p, d, i) {
      assert LinkOk(ptr, ring, if i <= k then i else i + 1);
    }
  }

  lemma JoinAscends(size: map<nat, nat>, ring: seq<nat>, base: nat, k: nat)
    requires Ascends(size, ring, base) && 1 <= k < |ring| - 1 && ring[k] + size[ring[k]] == ring[k + 1]
    ensures Ascends(size[ring[k] := size[ring[k]] + size[ring[k + 1]]], Dropped(ring, k + 1), base)
  {
  }

  lemma JoinGaps(size: map<nat, nat>, ring: seq<nat>, base: nat, t: set<nat>, k: nat)
    requires Ascends(size, ring, base) && Gaps(size, ring, t) && 1 <= k < |ring| - 1
    requires ring[k] + size[ring[k]] == ring[k + 1] && forall i :: i in t ==> i <= k
    ensures Ascends(size[ring[k] := size[ring[k]] + size[ring[k + 1]]], Dropped(ring, k + 1), base)
    ensures Gaps(size[ring[k] := size[ring[k]] + size[ring[k + 1]]], Dropped(ring, k + 1), t - {k})
  {
    JoinAscends(size, ring, base, k);
    var d := Dropped(ring, k + 1);
    var z := size[ring[k] := size[ring[k]] + size[ring[k + 1]]];
    forall i | 0 <= i < |d| - 1 && i !in t - {k} ensures d[i] + z[d[i]] != Next(d, i) {
      var o := if i < k then i else i + 1;
      assert ring[o] + size[ring[o]] != Next(ring, o);
    }
  }

  /** Joining the touching blocks ring[k] and ring[k+1]. */
  lemma JoinRing(size: map<nat, nat>, ptr: map<nat, nat>, ring: seq<nat>, base: nat, t: set<nat>, k: nat)
    requires Loose(size, ptr, ring, base, t) && 1 <= k < |ring| - 1 && ring[k] in size &&
      ring[k] + size[ring[k]] == ring[k + 1]
    requires forall i :: i in t ==> i <= k
    ensures ring[k + 1] in ptr && ring[k + 1] in size
    ensures Loose(size[ring[k] := size[ring[k]] + size[ring[k + 1]]], ptr[ring[k] := ptr[ring[k + 1]]],
                  Dropped(ring, k + 1), base, t - {k})
  {
    assert Key(0) == 0;
    JoinLinks(ptr, ring, k);
    JoinGaps(size, ring, base, t, k);
    assert LooseBody(size[ring[k] := size[ring[k]] + size[ring[k + 1]]], ptr[ring[k] := ptr[ring[k + 1]]],
      Dropped(ring, k + 1), base, t - {k});
  }

  function Joined(owner: map<nat, nat>, h: nat, r: nat): (o: map<nat, nat>)
    ensures o.Keys == owner.Keys
  {
    map x | x in owner :: if owner[x] == r then h else owner[x]
  }

  lemma JoinCovers(size: map<nat, nat>, ring: seq<nat>, live: map<nat, nat>, owner: map<nat, nat>, d: seq<nat>,
    h: nat, r: nat)
    requires |ring| > 0 && |d| > 0 && OwnerOk(size, ring, live, owner) && IsBlock(ring, live, h) &&
      IsBlock(ring, live, r)
    requires h in size && r in size && h != r && h !in live && h + size[h] == r
    requires forall x :: IsBlock(d, live, x) <==> IsBlock(ring, live, x) && x != r
    requires forall x :: x in live ==> x !in d
    ensures OwnerOk(size[h := size[h] + size[r]], d, live, Joined(owner, h, r))
  {
    assert Key(0) == 0;
    var z := size[h := size[h] + size[r]];
    forall b: nat, x: nat | IsBlock(d, live, b) && Covers(z, b, x) ensures x in owner && Joined(owner, h, r)[x] == b {
      assert Covers(size, if b == h && x >= r then r else b, x);
    }
    forall x | x in owner ensures Covers(z, Joined(owner, h, r)[x], x) {
      assert Covers(size, owner[x], x);
    }
    assert OwnerBody(z, d, live, Joined(owner, h, r));
  }

  lemma JoinOwner(size: map<nat, nat>, ring: seq<nat>, base: nat, live: map<nat, nat>, owner: map<nat, nat>, k: nat)
    requires Ascends(size, ring, base) && OwnerOk(size, ring, live, owner) && 1 <= k < |ring| - 1
    requires ring[k] + size[ring[k]] == ring[k + 1]
    ensures OwnerOk(size[ring[k] := size[ring[k]] + size[ring[k + 1]]], Dropped(ring, k + 1), live,
                    Joined(owner, ring[k], ring[k + 1]))
  {
    var d := Dropped(ring, k + 1);
    forall x ensures x in d <==> x in ring && x != ring[k + 1] { DroppedMembers(ring, k + 1, x); }
    forall x | x in live ensures x !in ring { LiveFacts(size, ring, live, owner, x); }
    JoinCovers(size, ring, live, owner, d, ring[k], ring[k + 1]);
  }

  /** Two neighbours that do not touch. */
  lemma Apart(size: map<nat, nat>, ptr: map<nat, nat>, ring: seq<nat>, base: nat, t: set<nat>, k: nat)
    requires Loose(size, ptr, ring, base, t) && !Touch(size, ring, k)
    ensures Loose(size, ptr, ring, base, t - {k})
  {
    assert Key(0) == 0;
    assert LooseBody(size, ptr, ring, base, t - {k});
  }

  // ---------------------------------------------------------------- finding the place

  lemma {:induction false} FindPlace(ring: seq<nat>, b: nat) returns (j: nat)
    requires |ring| > 0 && ring[0] < b && b !in ring && forall i, k :: 0 <= i < k < |ring| ==> ring[i] < ring[k]
    ensures Place(ring, b, j)
  {
    j := 0;
    while j + 1 < |ring| && ring[j + 1] < b
      invariant j < |ring| && ring[j] < b
    {
      j := j + 1;
    }
  }

  /** The two tests of free's search stop it exactly at the place of b. */
  lemma SearchStops(ring: seq<nat>, b: nat, i: nat, j: nat)
    requires Place(ring, b, j) && i < |ring| && forall i, k :: 0 <= i < k < |ring| ==> ring[i] < ring[k]
    ensures var p := ring[i]; var next := Next(ring, i);
      (b > p && b < next) || (p >= next && (b > p || b < next)) <==> i == j
  {
    assert i < j ==> i + 1 < |ring| && ring[i + 1] <= ring[j];
    assert i > j ==> ring[j + 1] <= ring[i];
    assert ring[0] <= ring[j];
  }

  /** A live block overlaps neither of its neighbours. */
  lemma NoOverlap(size: map<nat, nat>, ring: seq<nat>, base: nat, live: map<nat, nat>, owner: map<nat, nat>, b: nat,
    j: nat)
    requires Ascends(size, ring, base) && OwnerOk(size, ring, live, owner) && b in live && Place(ring, b, j)
    ensures b in size && ring[j] + size[ring[j]] <= b && (j + 1 < |ring| ==> b + size[b] <= ring[j + 1])
  {
    assert Key(0) == 0;
    assert Covers(size, b, b);
    if ring[j] + size[ring[j]] > b { assert Covers(size, ring[j], b); }
    if j + 1 < |ring| && b + size[b] > ring[j + 1] {
      assert Covers(size, b, ring[j + 1]) && Covers(size, ring[j + 1], ring[j + 1]);
    }
  }

  /** The free list after joining ring[k] to the block after it, if they touch. */
  ghost predicate Touch(size: map<nat, nat>, ring: seq<nat>, k: nat) {
    k + 1 < |ring| && ring[k] in size && ring[k] + size[ring[k]] == ring[k + 1]
  }

  lemma LooseAscends(size: map<nat, nat>, ptr: map<nat, nat>, ring: seq<nat>, base: nat, t: set<nat>)
    requires Loose(size, ptr, ring, base, t)
    ensures Ascends(size, ring, base)
  {
    assert Key(0) == 0;
  }

  lemma JoinStep(size: map<nat, nat>, ptr: map<nat, nat>, ring: seq<nat>, base: nat, live: map<nat, nat>,
    owner: map<nat, nat>, t: set<nat>, k: nat, u: set<nat>)
    requires Loose(size, ptr, ring, base, t) && OwnerOk(size, ring, live, owner) && k < |ring|
    requires (forall i :: i in t ==> i <= k) && u == t - {k}
    ensures if Touch(size, ring, k) then
        var h := ring[k]; var r := ring[k + 1];
        && r in ptr && r in size
        && Loose(size[h := size[h] + size[r]], ptr[h := ptr[r]], Dropped(ring, k + 1), base, u)
        && OwnerOk(size[h := size[h] + size[r]], Dropped(ring, k + 1), live, Joined(owner, h, r))
      else Loose(size, ptr, ring, base, u)
  {
    if Touch(size, ring, k) {
      RingFacts(size, ptr, ring, base, t);
      JoinRing(size, ptr, ring, base, t, k);
      LooseAscends(size, ptr, ring, base, t);
      JoinOwner(size, ring, base, live, owner, k);
    } else {
      Apart(size, ptr, ring, base, t, k);
    }
  }

  /** Linking the live block b in at its place j. */
  lemma InsertStep(size: map<nat, nat>, ptr: map<nat, nat>, ring: seq<nat>, base: nat, live: map<nat, nat>,
    owner: map<nat, nat>, b: nat, j: nat)
    requires Loose(size, ptr, ring, base, {}) && OwnerOk(size, ring, live, owner) && b in live && Place(ring, b, j)
    ensures ring[j] in ptr && b !in ring && b in size && size[b] == live[b]
    ensures Loose(size, ptr[b := ptr[ring[j]]][ring[j] := b], Inserted(ring, j, b), base, {j, j + 1})
    ensures OwnerOk(size, Inserted(ring, j, b), live - {b}, owner)
  {
    RingFacts(size, ptr, ring, base, {});
    LiveFacts(size, ring, live, owner, b);
    LooseAscends(size, ptr, ring, base, {});
    NoOverlap(size, ring, base, live, owner, b, j);
    InsertRing(size, ptr, ring, base, j, b);
    InsertOwner(size, ring, live, owner, j, b);
  }

  /** Between the two `if`s of free, with the pointer of p already set to b. */
  ghost predicate Halfway(size: map<nat, nat>, q: map<nat, nat>, ring: seq<nat>, base: nat, live: map<nat, nat>,
    owner: map<nat, nat>, b: nat, p: nat, j: nat) {
    && Loose(size, q, ring, base, {j}) && OwnerOk(size, ring, live, owner)
    && j + 1 < |ring| && ring[j] == p && ring[j + 1] == b && b in q && p in size && b in size
  }

  lemma PointerOrder(ptr: map<nat, nat>, b: nat, p: nat, r: nat)
    requires p in ptr && r in ptr && b != p && r != b && r != p && ptr[p] == r
    ensures ptr[b := r][p := b][b := ptr[r]] == ptr[b := ptr[r]][p := b]
  {
  }

  lemma NextBlock(size: map<nat, nat>, ptr: map<nat, nat>, ring: seq<nat>, base: nat, b: nat, j: nat)
    requires Loose(size, ptr, ring, base, {}) && Place(ring, b, j) && LinkOk(ptr, ring, j) && ptr[ring[j]] > b
    ensures j + 1 < |ring| && ptr[ring[j]] == ring[j + 1] && LinkOk(ptr, ring, j + 1) && ring[j] < b < ring[j + 1]
  {
    RingFacts(size, ptr, ring, base, {});
    assert ring[0] <= ring[j];
    if j + 1 < |ring| { assert LinkOk(ptr, ring, j + 1); }
  }

  lemma JoinSecond(size: map<nat, nat>, q: map<nat, nat>, s: seq<nat>, base: nat, live: map<nat, nat>, owner: map<nat,
    nat>,
                   b: nat, r: nat, j: nat)
    requires Loose(size, q, s, base, {j, j + 1}) && OwnerOk(size, s, live, owner)
    requires j + 2 < |s| && s[j + 1] == b && s[j + 2] == r && b in size && b + size[b] == r
    ensures r in size && r in q
    ensures Halfway(size[b := size[b] + size[r]], q[b := q[r]], Dropped(s, j + 2), base, live, Joined(owner, b, r), b,
      s[j], j)
  {
    JoinStep(size, q, s, base, live, owner, {j, j + 1}, j + 1, {j});
    RingFacts(size, q, s, base, {j, j + 1});
  }

  lemma JoinAfterTouching(size: map<nat, nat>, ptr: map<nat, nat>, ring: seq<nat>, base: nat, live: map<nat, nat>,
    owner: map<nat, nat>, b: nat, j: nat, p: nat, r: nat)
    requires Loose(size, ptr, ring, base, {}) && OwnerOk(size, ring, live, owner) && b in live && Place(ring, b, j)
    requires p == ring[j] && p in ptr && ptr[p] == r && j + 1 < |ring| && r == ring[j + 1]
    requires r in ptr && r != b && r != p && b in size && b + size[b] == r
    ensures r in size
    ensures Halfway(size[b := size[b] + size[r]], ptr[b := r][p := b][b := ptr[r]],
      Dropped(Inserted(ring, j, b), j + 2), base, live - {b},
                    Joined(owner, b, r), b, p, j)
  {
    InsertStep(size, ptr, ring, base, live, owner, b, j);
    JoinSecond(size, ptr[b := r][p := b], Inserted(ring, j, b), base, live - {b}, owner, b, r, j);
  }

  lemma JoinAfterApart(size: map<nat, nat>, ptr: map<nat, nat>, ring: seq<nat>, base: nat, live: map<nat, nat>,
    owner: map<nat, nat>, b: nat, j: nat)
    requires Loose(size, ptr, ring, base, {}) && OwnerOk(size, ring, live, owner) && b in live && Place(ring, b, j)
    requires LinkOk(ptr, ring, j) && b in size && b + size[b] != ptr[ring[j]]
    ensures Halfway(size, ptr[b := ptr[ring[j]]][ring[j] := b], Inserted(ring, j, b), base, live - {b}, owner, b,
      ring[j], j)
  {
    InsertStep(size, ptr, ring, base, live, owner, b, j);
    JoinStep(size, ptr[b := ptr[ring[j]]][ring[j] := b], Inserted(ring, j, b), base, live - {b}, owner, {j, j + 1},
      j + 1, {j});
    RingFacts(size, ptr, ring, base, {});
  }

  lemma JoinBeforeTouching(size: map<nat, nat>, q: map<nat, nat>, ring: seq<nat>, base: nat, live: map<nat, nat>,
    owner: map<nat, nat>, b: nat, p: nat, j: nat)
    requires Halfway(size, q, ring, base, live, owner, b, p, j) && p + size[p] == b
    ensures Loose(size[p := size[p] + size[b]], q[p := q[b]], Dropped(ring, j + 1), base, {})
    ensures OwnerOk(size[p := size[p] + size[b]], Dropped(ring, j + 1), live, Joined(owner, p, b))
    ensures p in Dropped(ring, j + 1) && size[b] > 0 && p != b
  {
    assert Dropped(ring, j + 1)[j] == p;
    RingFacts(size, q, ring, base, {j});
    JoinStep(size, q, ring, base, live, owner, {j}, j, {});
  }

  lemma JoinBeforeApart(size: map<nat, nat>, q: map<nat, nat>, ring: seq<nat>, base: nat, live: map<nat, nat>,
    owner: map<nat, nat>, b: nat, p: nat, j: nat)
    requires Halfway(size, q, ring, base, live, owner, b, p, j) && p + size[p] != b
    ensures Loose(size, q, ring, base, {}) && p in ring && b in ring
  {
    JoinStep(size, q, ring, base, live, owner, {j}, j, {});
  }

  /** The first `if` of free: block b goes into the list after p and is joined to the block after
      it. The pointer of p is still to be set. */
  method JoinAfter(size: map<nat, nat>, ptr: map<nat, nat>, b: nat, p: nat, ghost ring: seq<nat>, ghost base: nat,
                   ghost live: map<nat, nat>, ghost owner: map<nat, nat>, ghost j: nat)
    returns (size': map<nat, nat>, ptr': map<nat, nat>, ghost ring': seq<nat>, ghost owner': map<nat, nat>)
    requires Loose(size, ptr, ring, base, {}) && OwnerOk(size, ring, live, owner)
    requires b in live && Place(ring, b, j) && p == ring[j] && LinkOk(ptr, ring, j)
    ensures owner'.Keys == owner.Keys && b in ptr' && b in size' && size'[b] >= live[b]
    ensures Halfway(size', ptr'[p := b], ring', base, live - {b}, owner', b, p, j)
  {
    size', owner' := size, owner;
    LiveFacts(size, ring, live, owner, b);
    if b + size[b] == ptr[p] {
      NextBlock(size, ptr, ring, base, b, j);
      JoinAfterTouching(size, ptr, ring, base, live, owner, b, j, p, ptr[p]);
      PointerOrder(ptr, b, p, ptr[p]);
      ring', owner' := Dropped(Inserted(ring, j, b), j + 2), Joined(owner, b, ptr[p]);
      size' := size[b := size[b] + size[ptr[p]]];
      ptr' := ptr[b := ptr[ptr[p]]];
    } else {
      JoinAfterApart(size, ptr, ring, base, live, owner, b, j);
      ring' := Inserted(ring, j, b);
      ptr' := ptr[b := ptr[p]];
    }
  }

  /** The second `if` of free: block b is joined to p, the block before it. h is where b now is. */
  method JoinBefore(size: map<nat, nat>, ptr: map<nat, nat>, b: nat, p: nat, ghost ring: seq<nat>, ghost base: nat,
                    ghost live: map<nat, nat>, ghost owner: map<nat, nat>, ghost j: nat)
    returns (size': map<nat, nat>, ptr': map<nat, nat>, ghost ring': seq<nat>, ghost owner': map<nat, nat>,
      ghost h: nat)
    requires Halfway(size, ptr[p := b], ring, base, live, owner, b, p, j) && b in ptr
    ensures Loose(size', ptr', ring', base, {}) && OwnerOk(size', ring', live, owner')
    ensures owner'.Keys == owner.Keys && p in ring'
    ensures h in ring' && h <= b && h in size' && h + size'[h] >= b + size[b] && size'[h] >= size[b]
  {
    size', ring', owner' := size, ring, owner;
    if p + size[p] == b {
      JoinBeforeTouching(size, ptr[p := b], ring, base, live, owner, b, p, j);
      assert ptr[p := b][p := ptr[b]] == ptr[p := ptr[b]];
      ring', owner' := Dropped(ring, j + 1), Joined(owner, p, b);
      size' := size[p := size[p] + size[b]];
      ptr' := ptr[p := ptr[b]];
      h := p;
    } else {
      JoinBeforeApart(size, ptr[p := b], ring, base, live, owner, b, p, j);
      ptr' := ptr[p := b];
      h := b;
    }
  }

  /** The search of free, which stops at the block after which b belongs. */
  method Search(ptr: map<nat, nat>, freep: nat, b: nat, ghost ring: seq<nat>) returns (p: nat, ghost j: nat)
    requires |ring| > 0 && (forall i, k :: 0 <= i < k < |ring| ==> ring[i] < ring[k])
    requires Links(ptr, ring) && freep in ring && ring[0] < b && b !in ring
    ensures Place(ring, b, j) && p == ring[j] && LinkOk(ptr, ring, j)
  {
    j := FindPlace(ring, b);
    p := freep;
    ghost var i :| 0 <= i < |ring| && ring[i] == freep;
    assert LinkOk(ptr, ring, i);
    SearchStops(ring, b, i, j);
    while !(b > p && b < ptr[p])
      invariant 0 <= i < |ring| && p == ring[i] && LinkOk(ptr, ring, i)
      invariant (b > p && b < ptr[p]) || (p >= ptr[p] && (b > p || b < ptr[p])) <==> i == j
      decreases if i <= j then j - i else |ring| - i + j
    {
      if p >= ptr[p] && (b > p || b < ptr[p]) { break; }
      p := ptr[p];
      i := if i == |ring| - 1 then 0 else i + 1;
      assert LinkOk(ptr, ring, i);
      SearchStops(ring, b, i, j);
    }
  }

  /** p is the last free block below b. */
  ghost predicate JustBelow(ring: seq<nat>, b: nat, p: nat) {
    p in ring && p < b && forall x :: x in ring && x < b ==> x <= p
  }

  /** The body of free for the block with header b. */
  method FreeBlock(size: map<nat, nat>, ptr: map<nat, nat>, freep: nat, b: nat, ghost ring: seq<nat>, ghost base: nat,
                   ghost live: map<nat, nat>, ghost owner: map<nat, nat>)
    returns (size': map<nat, nat>, ptr': map<nat, nat>, p: nat, ghost ring': seq<nat>, ghost live': map<nat, nat>,
             ghost owner': map<nat, nat>, ghost h: nat)
    requires Loose(size, ptr, ring, base, {}) && OwnerOk(size, ring, live, owner) && freep in ring && b in live &&
      base < b
    ensures Loose(size', ptr', ring', base, {}) && OwnerOk(size', ring', live', owner') && p in ring'
    ensures live' == live - {b} && owner'.Keys == owner.Keys
    ensures h in ring' && h <= b && h in size' && h + size'[h] >= b + live[b] && size'[h] >= live[b]
    ensures JustBelow(ring, b, p)
  {
    ghost var j;
    RingFacts(size, ptr, ring, base, {});
    LiveFacts(size, ring, live, owner, b);
    p, j := Search(ptr, freep, b, ring);
    size', ptr', ring', owner' := JoinAfter(size, ptr, b, p, ring, base, live, owner, j);
    live' := live - {b};
    size', ptr', ring', owner', h := JoinBefore(size', ptr', b, p, ring', base, live', owner', j);
  }

  // ---------------------------------------------------------------- taking a block

  lemma WholeRing(size: map<nat, nat>, ring: seq<nat>, base: nat, i: nat)
    requires Ascends(size, ring, base) && 1 <= i < |ring|
    ensures Ascends(size, Dropped(ring, i), base)
  {
  }

  lemma WholeGaps(size: map<nat, nat>, ring: seq<nat>, base: nat, i: nat)
    requires Ascends(size, ring, base) && Gaps(size, ring, {}) && 1 <= i < |ring|
    ensures Ascends(size, Dropped(ring, i), base) && Gaps(size, Dropped(ring, i), {})
  {
    WholeRing(size, ring, base, i);
    var d := Dropped(ring, i);
    forall k | 0 <= k < |d| - 1 ensures d[k] + size[d[k]] != Next(d, k) {
      if k == i - 1 {
        assert ring[k] + size[ring[k]] <= ring[k + 1] < ring[k + 2];
      } else {
        var o := if k < i then k else k + 1;
        assert ring[o] + size[ring[o]] != Next(ring, o);
      }
    }
  }

  lemma WholeOwner(size: map<nat, nat>, ring: seq<nat>, base: nat, live: map<nat, nat>, owner: map<nat, nat>, i: nat)
    requires Ascends(size, ring, base) && OwnerOk(size, ring, live, owner) && 1 <= i < |ring|
    ensures OwnerOk(size, Dropped(ring, i), live[ring[i] := size[ring[i]]], owner)
  {
    var d := Dropped(ring, i);
    forall x ensures x in d <==> x in ring && x != ring[i] { DroppedMembers(ring, i, x); }
    TakeOwner(size, ring, live, owner, ring[i], d);
  }

  /** malloc takes the whole free block ring[i]. */
  lemma TakeWhole(size: map<nat, nat>, ptr: map<nat, nat>, ring: seq<nat>, base: nat, live: map<nat, nat>,
    owner: map<nat, nat>, i: nat)
    requires Loose(size, ptr, ring, base, {}) && OwnerOk(size, ring, live, owner) && 1 <= i < |ring|
    ensures ring[i] in ptr && ring[i] in size && ring[i] !in live
    ensures Loose(size, ptr[ring[i - 1] := ptr[ring[i]]], Dropped(ring, i), base, {})
    ensures OwnerOk(size, Dropped(ring, i), live[ring[i] := size[ring[i]]], owner)
  {
    assert Key(0) == 0;
    JoinLinks(ptr, ring, i - 1);
    WholeGaps(size, ring, base, i);
    WholeOwner(size, ring, base, live, owner, i);
    assert LooseBody(size, ptr[ring[i - 1] := ptr[ring[i]]], Dropped(ring, i), base, {});
  }

  lemma TakeOwner(size: map<nat, nat>, ring: seq<nat>, live: map<nat, nat>, owner: map<nat, nat>, h: nat, d: seq<nat>)
    requires |ring| > 0 && OwnerOk(size, ring, live, owner) && h in ring && h != ring[0] && h in size && size[h] > 0
    requires |d| > 0 && d[0] == ring[0] && forall x :: x in d <==> x in ring && x != h
    ensures OwnerOk(size, d, live[h := size[h]], owner)
  {
    assert Key(0) == 0;
    assert forall x :: IsBlock(d, live[h := size[h]], x) <==> IsBlock(ring, live, x);
    assert OwnerBody(size, d, live[h := size[h]], owner);
  }

  function Carved(owner: map<nat, nat>, c: nat, n: nat): (o: map<nat, nat>)
    ensures o.Keys == owner.Keys
  {
    map x | x in owner :: if c <= x < c + n then c else owner[x]
  }

  lemma TailFresh(size: map<nat, nat>, ring: seq<nat>, base: nat, live: map<nat, nat>, owner: map<nat, nat>, i: nat,
    c: nat)
    requires Ascends(size, ring, base) && OwnerOk(size, ring, live, owner) && 1 <= i < |ring|
    requires ring[i] < c < ring[i] + size[ring[i]]
    ensures c !in live && c !in ring
  {
    assert Key(0) == 0;
    assert Covers(size, ring[i], c) && IsBlock(ring, live, ring[i]);
    if c in live { assert Covers(size, c, c); }
    forall k | 0 <= k < |ring| ensures ring[k] != c {
      assert k < i || k == i || k > i;
    }
  }

  lemma TailAscends(size: map<nat, nat>, z: map<nat, nat>, ring: seq<nat>, base: nat, i: nat, c: nat)
    requires Ascends(size, ring, base) && 1 <= i < |ring| && ring[i] < c < ring[i] + size[ring[i]] && c !in ring
    requires z == size[ring[i] := c - ring[i]][c := ring[i] + size[ring[i]] - c]
    ensures Ascends(z, ring, base)
  {
    forall k | 0 <= k < |ring| ensures ring[k] in z && z[ring[k]] == if k == i then c - ring[i] else size[ring[k]] {
    }
  }

  lemma TailGaps(size: map<nat, nat>, z: map<nat, nat>, ring: seq<nat>, base: nat, i: nat, c: nat)
    requires Ascends(size, ring, base) && 1 <= i < |ring| && ring[i] < c < ring[i] + size[ring[i]] && c !in ring
    requires z == size[ring[i] := c - ring[i]][c := ring[i] + size[ring[i]] - c]
    requires Gaps(size, ring, {}) && Ascends(z, ring, base)
    ensures Gaps(z, ring, {})
  {
    forall k | 0 <= k < |ring| - 1 ensures ring[k] + z[ring[k]] != Next(ring, k) {
      assert ring[k] + size[ring[k]] != Next(ring, k);
      assert ring[k] + size[ring[k]] <= ring[k + 1];
    }
  }

  lemma TailOwner(size: map<nat, nat>, ring: seq<nat>, live: map<nat, nat>, owner: map<nat, nat>, h: nat, c: nat,
    n: nat)
    requires |ring| > 0 && OwnerOk(size, ring, live, owner) && h in ring && h != ring[0] && h in size && h < c && n > 0
    requires c !in ring && c !in live && c + n == h + size[h]
    ensures OwnerOk(size[h := c - h][c := n], ring, live[c := n], Carved(owner, c, n))
  {
    assert Key(0) == 0;
    var z := size[h := c - h][c := n];
    forall b: nat, x: nat | IsBlock(ring, live[c := n], b) && Covers(z, b, x)
      ensures x in owner && Carved(owner, c, n)[x] == b
    {
      assert Covers(size, if b == c then h else b, x);
      if c <= x < c + n { assert Covers(size, h, x); }
    }
    forall x | x in owner ensures Covers(z, Carved(owner, c, n)[x], x) {
      assert Covers(size, owner[x], x);
      if c <= x < c + n { assert Covers(size, h, x); }
    }
    assert OwnerBody(z, ring, live[c := n], Carved(owner, c, n));
  }

  /** malloc takes the tail, from c on, of the free block ring[i]. */
  lemma TakeTail(size: map<nat, nat>, z: map<nat, nat>, ptr: map<nat, nat>, ring: seq<nat>, base: nat,
    live: map<nat, nat>, owner: map<nat, nat>, i: nat, c: nat)
    requires Loose(size, ptr, ring, base, {}) && OwnerOk(size, ring, live, owner) && 1 <= i < |ring|
    requires ring[i] in size && ring[i] < c < ring[i] + size[ring[i]]
    requires z == size[ring[i] := c - ring[i]][c := ring[i] + size[ring[i]] - c]
    ensures c !in live && Loose(z, ptr, ring, base, {})
    ensures OwnerOk(z, ring, live[c := ring[i] + size[ring[i]] - c], Carved(owner, c, ring[i] + size[ring[i]] - c))
  {
    assert Key(0) == 0;
    TailFresh(size, ring, base, live, owner, i, c);
    TailAscends(size, z, ring, base, i, c);
    TailGaps(size, z, ring, base, i, c);
    TailOwner(size, ring, live, owner, ring[i], c, ring[i] + size[ring[i]] - c);
    assert LooseBody(z, ptr, ring, base, {});
  }

  /** Position m steps after f on a ring of n. */
  function Pos(f: nat, m: nat, n: nat): (i: nat)
    requires f < n && m <= n
    ensures i < n
  {
    if f + m < n then f + m else f + m - n
  }

  lemma AllAround(size: map<nat, nat>, ring: seq<nat>, f: nat, bound: nat)
    requires f < |ring| && forall i :: 0 <= i < |ring| ==> ring[i] in size
    requires forall m :: 1 <= m <= |ring| ==> size[ring[Pos(f, m, |ring|)]] < bound
    ensures forall x :: 0 <= x < |ring| ==> size[ring[x]] < bound
  {
    forall x | 0 <= x < |ring| ensures size[ring[x]] < bound {
      assert x == Pos(f, if x > f then x - f else x - f + |ring|, |ring|);
    }
  }

  /** No free block has n units. */
  ghost predicate NoFit(size: map<nat, nat>, ring: seq<nat>, n: nat) {
    forall k :: 0 <= k < |ring| ==> ring[k] in size && size[ring[k]] < n
  }

  /** Position i is the first one around the ring from freep on whose block has n units. */
  ghost predicate FirstFit(size: map<nat, nat>, ring: seq<nat>, freep: nat, n: nat, i: nat) {
    && i < |ring| && ring[i] in size && size[ring[i]] >= n
    && exists f: nat, m: nat :: f < |ring| && ring[f] == freep && FirstFrom(size, ring, f, n, i, m)
  }

  ghost predicate FirstFrom(size: map<nat, nat>, ring: seq<nat>, f: nat, n: nat, i: nat, m: nat) {
    && f < |ring| && 1 <= m <= |ring| && i == Pos(f, m, |ring|)
    && forall l :: 1 <= l < m ==> ring[Pos(f, l, |ring|)] in size && size[ring[Pos(f, l, |ring|)]] < n
  }

  /** The search of malloc: once around the list, from the block after freep to freep itself. */
  method Scan(size: map<nat, nat>, ptr: map<nat, nat>, freep: nat, nunits: nat, ghost ring: seq<nat>)
    returns (found: bool, prevp: nat, p: nat, ghost i: nat)
    requires |ring| > 0 && (forall i :: 0 <= i < |ring| ==> ring[i] in size) && size[ring[0]] < nunits
    requires (forall i, j :: 0 <= i < j < |ring| ==> ring[i] != ring[j]) && Links(ptr, ring) && freep in ring
    ensures found ==> 1 <= i < |ring| && p == ring[i] && prevp == ring[i - 1] && size[p] >= nunits
    ensures found ==> FirstFit(size, ring, freep, nunits, i)
    ensures !found <==> NoFit(size, ring, nunits)
  {
    ghost var n := |ring|;
    ghost var f :| 0 <= f < n && ring[f] == freep;
    ghost var k := 1;
    assert LinkOk(ptr, ring, f);
    prevp, p, i := freep, ptr[freep], 0;
    while true
      invariant 1 <= k <= n && p == ring[Pos(f, k, n)] && prevp == ring[Pos(f, k - 1, n)]
      invariant forall m :: 1 <= m < k ==> size[ring[Pos(f, m, n)]] < nunits
      decreases n - k
    {
      if size[p] >= nunits {
        i := Pos(f, k, n);
        assert FirstFrom(size, ring, f, nunits, i, k);
        return true, prevp, p, i;
      }
      if p == freep {
        assert k == n;
        AllAround(size, ring, f, nunits);
        return false, prevp, p, 0;
      }
      assert LinkOk(ptr, ring, Pos(f, k, n));
      prevp, p := p, ptr[p];
      k := k + 1;
    }
  }

  /** The part of malloc that takes nunits units from the free block p. */
  method Take(size: map<nat, nat>, ptr: map<nat, nat>, prevp: nat, p: nat, nunits: nat, ghost ring: seq<nat>,
    ghost base: nat, ghost live: map<nat, nat>, ghost owner: map<nat, nat>, ghost i: nat)
    returns (size': map<nat, nat>, ptr': map<nat, nat>, c: nat, ghost ring': seq<nat>, ghost owner': map<nat, nat>)
    requires Loose(size, ptr, ring, base, {}) && OwnerOk(size, ring, live, owner)
    requires 1 <= i < |ring| && p == ring[i] && prevp == ring[i - 1] && p in size && size[p] >= nunits > 0
    ensures Loose(size', ptr', ring', base, {}) && OwnerOk(size', ring', live[c := nunits], owner')
    ensures c !in live && owner'.Keys == owner.Keys && prevp in ring'
    ensures p <= c && c + nunits == p + size[p]
  {
    size', ptr', owner', ring' := size, ptr, owner, ring;
    RingFacts(size, ptr, ring, base, {});
    assert LinkOk(ptr, ring, i);
    if size[p] == nunits {
      TakeWhole(size, ptr, ring, base, live, owner, i);
      ptr' := ptr[prevp := ptr[p]];
      c := p;
      ring' := Dropped(ring, i);
      assert ring'[i - 1] == prevp;
    } else {
      size' := size[p := size[p] - nunits];
      c := p + size'[p];
      size' := size'[c := nunits];
      TakeTail(size, size', ptr, ring, base, live, owner, i, c);
      owner' := Carved(owner, c, nunits);
    }
  }

  function Grown(nu: nat): nat {
    if nu < MINUNITS then MINUNITS else nu
  }

  /** The units a, ..., b - 1. */
  function Span(a: nat, b: nat): (r: set<nat>)
    ensures forall x :: x in r <==> a <= x < b
  {
    if a >= b then {} else Span(a, b - 1) + {b - 1}
  }

  function Extended(owner: map<nat, nat>, h: nat, n: nat): (o: map<nat, nat>)
    ensures o.Keys == owner.Keys + Span(h, h + n)
  {
    map x | x in owner.Keys + Span(h, h + n) :: if h <= x < h + n then h else owner[x]
  }

  /** New units above everything else form a block of their own. */
  lemma GrowHeap(size: map<nat, nat>, ptr: map<nat, nat>, ring: seq<nat>, base: nat, live: map<nat, nat>,
    owner: map<nat, nat>, h: nat, n: nat)
    requires Loose(size, ptr, ring, base, {}) && OwnerOk(size, ring, live, owner) && Within(owner, base, h) &&
      base < h && n > 0
    ensures h !in live && Loose(size[h := n], ptr, ring, base, {})
    ensures OwnerOk(size[h := n], ring, live[h := n], Extended(owner, h, n)) &&
      Within(Extended(owner, h, n), base, h + n)
  {
    assert Key(0) == 0;
    GrowFresh(size, ring, base, live, owner, h);
    GrowGaps(size, ring, base, h, n);
    GrowOwner(size, ring, live, owner, base, h, n);
    assert LooseBody(size[h := n], ptr, ring, base, {});
  }

  lemma GrowFresh(size: map<nat, nat>, ring: seq<nat>, base: nat, live: map<nat, nat>, owner: map<nat, nat>, h: nat)
    requires Ascends(size, ring, base) && OwnerOk(size, ring, live, owner) && Within(owner, base, h) && base < h
    ensures h !in live && h !in ring
  {
    assert Key(0) == 0;
    if h in live { assert Covers(size, h, h); }
    if h in ring { assert Covers(size, h, h); }
  }

  lemma GrowGaps(size: map<nat, nat>, ring: seq<nat>, base: nat, h: nat, n: nat)
    requires Ascends(size, ring, base) && Gaps(size, ring, {}) && h !in ring
    ensures Ascends(size[h := n], ring, base) && Gaps(size[h := n], ring, {})
  {
  }

  lemma GrowOwner(size: map<nat, nat>, ring: seq<nat>, live: map<nat, nat>, owner: map<nat, nat>, base: nat, h: nat,
    n: nat)
    requires |ring| > 0 && OwnerOk(size, ring, live, owner) && Within(owner, base, h) && h !in ring && h !in live &&
      n > 0
    ensures OwnerOk(size[h := n], ring, live[h := n], Extended(owner, h, n))
  {
    assert Key(0) == 0;
    var z := size[h := n];
    forall b: nat, x: nat | IsBlock(ring, live[h := n], b) && Covers(z, b, x)
      ensures x in Extended(owner, h, n) && Extended(owner, h, n)[x] == b
    {
      if b != h { assert Covers(size, b, x); } else { assert x in Span(h, h + n); }
    }
    forall x | x in Extended(owner, h, n) ensures Covers(z, Extended(owner, h, n)[x], x) {
      if x in owner { assert Covers(size, owner[x], x); }
    }
    assert OwnerBody(z, ring, live[h := n], Extended(owner, h, n));
  }

  ghost predicate Within(owner: map<nat, nat>, base: nat, brk: nat) {
    forall x :: x in owner ==> base < x < brk
  }

  lemma LiveWithin(size: map<nat, nat>, ring: seq<nat>, live: map<nat, nat>, owner: map<nat, nat>, base: nat,
    brk: nat, b: nat)
    requires |ring| > 0 && OwnerOk(size, ring, live, owner) && Within(owner, base, brk) && b in live
    ensures base < b < brk
  {
    assert Key(0) == 0;
    assert Covers(size, b, b);
  }

  lemma RingPositive(size: map<nat, nat>, ptr: map<nat, nat>, ring: seq<nat>, base: nat, p: nat)
    requires Loose(size, ptr, ring, base, {}) && p in ring && base > 0
    ensures p > 0
  {
    RingFacts(size, ptr, ring, base, {});
  }

  /** morecore once sbrk has granted n units at brk: they become a block, which is freed. */
  method Grow(size: map<nat, nat>, ptr: map<nat, nat>, freep: nat, brk: nat, n: nat, ghost ring: seq<nat>,
    ghost base: nat, ghost live: map<nat, nat>, ghost owner: map<nat, nat>)
    returns (size': map<nat, nat>, ptr': map<nat, nat>, p: nat, ghost ring': seq<nat>, ghost owner': map<nat, nat>,
      ghost h: nat)
    requires Loose(size, ptr, ring, base, {}) && OwnerOk(size, ring, live, owner) && freep in ring
    requires Within(owner, base, brk) && base < brk && n > 0
    ensures Loose(size', ptr', ring', base, {}) && OwnerOk(size', ring', live, owner') && p in ring'
    ensures owner'.Keys == owner.Keys + Span(brk, brk + n) && Within(owner', base, brk + n)
    ensures h in ring' && h in size' && size'[h] >= n
  {
    GrowHeap(size, ptr, ring, base, live, owner, brk, n);
    ghost var l;
    size', ptr', p, ring', l, owner',
      h := FreeBlock(size[brk := n], ptr, freep, brk, ring, base, live[brk := n], Extended(owner, brk, n));
    assert l == live;
  }

  // ---------------------------------------------------------------- the allocator

  /** The units malloc asks for: the header and enough units for nbytes bytes. */
  function Units(nbytes: nat): (n: nat)
    ensures n > 0 && (n - 1) * HEADER >= nbytes && (n >= 2 ==> (n - 2) * HEADER < nbytes)
  {
    (nbytes + HEADER - 1) / HEADER + 1
  }

  /** The conversion of nu * sizeof(Header) to the int parameter of sbrk. */
  function Int32(x: nat): int {
    var m := x % 0x1_0000_0000;
    if m < 0x8000_0000 then m else m - 0x1_0000_0000
  }

  const MAXUNITS: nat := 0x800_0000  // 2^31 / HEADER
  const MAXBYTES: nat := 0x7FFF_FFE0

  /** malloc(nbytes) asks sbrk for the units it then uses if and only if nbytes <= MAXBYTES: beyond
      that the conversion to int loses them. */
  lemma SbrkExact(nbytes: nat)
    requires nbytes < 0x1_0000_0000
    ensures Int32(Grown(Units(nbytes)) * HEADER) == Grown(Units(nbytes)) * HEADER <==> nbytes <= MAXBYTES
    ensures nbytes <= MAXBYTES <==> Units(nbytes) < MAXUNITS
  {
  }

  /** The largest request asks sbrk for one header and records a block of more than 2^28 of them. */
  lemma SbrkWraps()
    ensures Int32(Grown(Units(0xFFFF_FFFF)) * HEADER) == HEADER && Grown(Units(0xFFFF_FFFF)) > 0x1000_0000
  {
  }

  /** How far sbrk(n * sizeof(Header)) moves the break, in units. */
  method BreakStep(n: nat) returns (units: int)
    requires n < MAXUNITS
    ensures units == n
  {
    var bytes := Int32(n * HEADER);
    units := bytes / HEADER;
  }

  /** morecore after sbrk granted the request: at least MINUNITS more units, then another look. */
  method MorecoreAndScan(size: map<nat, nat>, ptr: map<nat, nat>, freep: nat, brk: nat, nunits: nat,
                         ghost ring: seq<nat>, ghost base: nat, ghost live: map<nat, nat>, ghost owner: map<nat, nat>)
    returns (found: bool, prevp: nat, p: nat, size': map<nat, nat>, ptr': map<nat, nat>, freep': nat, brk': nat,
             ghost ring': seq<nat>, ghost owner': map<nat, nat>, ghost i: nat)
    requires Loose(size, ptr, ring, base, {}) && OwnerOk(size, ring, live, owner) && freep in ring
    requires Within(owner, base, brk) && base < brk && 0 < nunits < MAXUNITS
    ensures Loose(size', ptr', ring', base, {}) && OwnerOk(size', ring', live, owner') && freep' in ring'
    ensures Within(owner', base, brk') && brk' == brk + Grown(nunits) && owner'.Keys == owner.Keys + Span(brk, brk')
    ensures found && 1 <= i < |ring'| && p == ring'[i] && prevp == ring'[i - 1] && p in size' && size'[p] >= nunits
  {
    var n := if nunits < MINUNITS then MINUNITS else nunits;
    var step := BreakStep(n);
    ghost var h;
    size', ptr', freep', ring', owner', h := Grow(size, ptr, freep, brk, n, ring, base, live, owner);
    brk' := brk + step;
    RingFacts(size', ptr', ring', base, {});
    found, prevp, p, i := Scan(size', ptr', freep', nunits, ring');
  }

  /** The loop of malloc: look once around the list; if nothing fits, grow the heap and look again.
      After growing, the second look succeeds, so sbrk is asked at most once. `grant` is the
      kernel's answer. */
  method FindFit(size0: map<nat, nat>, ptr0: map<nat, nat>, freep0: nat, brk0: nat, nunits: nat, grant: bool,
                 ghost ring0: seq<nat>, ghost base: nat, ghost live: map<nat, nat>, ghost owner0: map<nat, nat>)
    returns (found: bool, asked: bool, prevp: nat, p: nat, size: map<nat, nat>, ptr: map<nat, nat>, freep: nat,
             brk: nat, ghost ring: seq<nat>, ghost owner: map<nat, nat>, ghost i: nat)
    requires Loose(size0, ptr0, ring0, base, {}) && OwnerOk(size0, ring0, live, owner0) && freep0 in ring0
    requires Within(owner0, base, brk0) && base < brk0 && 0 < nunits < MAXUNITS
    ensures Loose(size, ptr, ring, base, {}) && OwnerOk(size, ring, live, owner) && freep in ring
    ensures Within(owner, base, brk) && base < brk && (!found <==> asked && !grant)
    ensures found ==> 1 <= i < |ring| && p == ring[i] && prevp == ring[i - 1] && p in size && size[p] >= nunits
    ensures if asked && grant then brk == brk0 + Grown(nunits) && owner.Keys == owner0.Keys + Span(brk0, brk)
            else brk == brk0 && owner == owner0
    ensures asked <==> NoFit(size0, ring0, nunits)
    ensures !asked ==> size == size0 && ring == ring0 && FirstFit(size0, ring0, freep0, nunits, i)
  {
    size, ptr, freep, brk, ring, owner := size0, ptr0, freep0, brk0, ring0, owner0;
    asked := false;
    RingFacts(size, ptr, ring, base, {});
    found, prevp, p, i := Scan(size, ptr, freep, nunits, ring);
    if !found {
      asked := true;
      if grant {
        found, prevp, p, size, ptr, freep, brk, ring, owner, i :=
          MorecoreAndScan(size0, ptr0, freep0, brk0, nunits, ring0, base, live, owner0);
      }
    }
  }

  /** malloc gave the last n units of the first free block that has them, and freep is now the one before it. */
  ghost predicate TakenFrom(size: map<nat, nat>, ring: seq<nat>, freep: nat, n: nat, i: nat, ap: nat, freep': nat) {
    && 1 <= i < |ring| && FirstFit(size, ring, freep, n, i) && freep' == ring[i - 1]
    && ring[i] < ap && ap - 1 + n == ring[i] + size[ring[i]]
  }

  /** malloc after the size computation. */
  method AllocateUnits(size0: map<nat, nat>, ptr0: map<nat, nat>, freep0: nat, brk0: nat, nunits: nat, grant: bool,
                       ghost ring0: seq<nat>, ghost base: nat, ghost live0: map<nat, nat>, ghost owner0: map<nat, nat>)
    returns (ap: nat, asked: bool, size: map<nat, nat>, ptr: map<nat, nat>, freep: nat, brk: nat,
             ghost ring: seq<nat>, ghost live: map<nat, nat>, ghost owner: map<nat, nat>, ghost i: nat)
    requires Loose(size0, ptr0, ring0, base, {}) && OwnerOk(size0, ring0, live0, owner0) && freep0 in ring0
    requires Within(owner0, base, brk0) && base < brk0 && 0 < nunits < MAXUNITS
    ensures Loose(size, ptr, ring, base, {}) && OwnerOk(size, ring, live, owner) && freep in ring
    ensures Within(owner, base, brk) && base < brk && (ap == 0 <==> asked && !grant)
    ensures ap == 0 ==> live == live0 && owner == owner0 && brk == brk0
    ensures ap != 0 ==> ap - 1 !in live0 && live == live0[ap - 1 := nunits]
    ensures ap != 0 && !asked ==> brk == brk0 && owner.Keys == owner0.Keys
    ensures ap != 0 && asked ==> brk == brk0 + Grown(nunits) && owner.Keys == owner0.Keys + Span(brk0, brk)
    ensures asked <==> NoFit(size0, ring0, nunits)
    ensures !asked ==> TakenFrom(size0, ring0, freep0, nunits, i, ap, freep)
  {
    var found, prevp, p;
    found, asked, prevp, p, size, ptr, freep, brk, ring, owner, i :=
      FindFit(size0, ptr0, freep0, brk0, nunits, grant, ring0, base, live0, owner0);
    ap, live := 0, live0;
    if found {
      var c: nat;
      size, ptr, c, ring, owner := Take(size, ptr, prevp, p, nunits, ring, base, live, owner, i);
      live := live[c := nunits];
      freep := prevp;
      ap := c + 1;
    }
  }

  method UnitsFor(nbytes: nat) returns (n: nat)
    requires nbytes <= MAXBYTES
    ensures n == Units(nbytes) && 0 < n < MAXUNITS
  {
    n := (nbytes + HEADER - 1) / HEADER + 1;
    SbrkExact(nbytes);
  }

  class Malloc {
    const base: nat
    var size: map<nat, nat>  // s.size of every header
    var ptr: map<nat, nat>   // s.ptr of every header
    var freep: nat           // 0 before the first call
    var brk: nat             // the end of the data segment
    ghost var ring: seq<nat>
    ghost var live: map<nat, nat>  // the blocks given to the program, with their units
    ghost var owner: map<nat, nat>

    ghost predicate Valid()
      reads this
    {
      && 0 < base < brk
      && (freep == 0 ==> live == map[] && owner == map[])
      && (freep != 0 ==> Started())
    }

    ghost predicate Started()
      reads this
    {
      && 0 < base < brk && Loose(size, ptr, ring, base, {}) && OwnerOk(size, ring, live, owner)
      && freep in ring && Within(owner, base, brk)
    }

    constructor (base: nat, brk: nat)
      requires 0 < base < brk
      ensures Valid() && live == map[] && owner == map[] && this.brk == brk && this.base == base
    {
      this.base, this.brk, freep := base, brk, 0;
      size, ptr, ring, live, owner := map[], map[], [], map[], map[];
    }

    /** free(ap) for a block that malloc returned. Its units are now inside the free block h, nothing
        else changes hands, and the free list stays one ascending ring without touching blocks. */
    method Free(ap: nat) returns (ghost h: nat)
      requires Valid() && ap > 0 && ap - 1 in live
      modifies this`size, this`ptr, this`freep, this`ring, this`live, this`owner
      ensures Valid() && Started() && live == old(live) - {ap - 1} && owner.Keys == old(owner).Keys
      ensures h in ring && h in size && h < ap && h + size[h] >= ap - 1 + old(live)[ap - 1] &&
        size[h] >= old(live)[ap - 1]
      ensures JustBelow(old(ring), ap - 1, freep)
    {
      LiveWithin(size, ring, live, owner, base, brk, ap - 1);
      ghost var r, l, o;
      size, ptr, freep, r, l, o, h := FreeBlock(size, ptr, freep, ap - 1, ring, base, live, owner);
      ring, live, owner := r, l, o;
      RingPositive(size, ptr, ring, base, freep);
    }

    /** The first call of malloc makes the list of the empty block at base. */
    method Start()
      requires Valid()
      modifies this`size, this`ptr, this`freep, this`ring
      ensures Started() && freep != 0
      ensures if old(freep) != 0 then size == old(size) && ring == old(ring) && freep == old(freep)
              else ring == [base] && base in size && size[base] == 0
    {
      if freep == 0 {
        ptr, size, freep := ptr[base := base], size[base := 0], base;
        ring := [base];
        assert LinkOk(ptr, ring, 0);
        assert LooseBody(size, ptr, ring, base, {}) && OwnerBody(size, ring, live, owner);
      }
    }

    /** malloc: a new live block with room for nbytes bytes, the tail of the first free block that has
        the units; sbrk is asked exactly when no free block has them, and malloc fails only if it refuses. */
    method Allocate(nbytes: nat, grant: bool) returns (ap: nat, asked: bool, ghost i: nat)
      requires Valid() && nbytes <= MAXBYTES
      modifies this
      ensures Valid() && (ap == 0 <==> asked && !grant)
      ensures ap == 0 ==> live == old(live) && owner == old(owner) && brk == old(brk)
      ensures ap != 0 ==> ap - 1 !in old(live) && live == old(live)[ap - 1 := Units(nbytes)]
      ensures ap != 0 && !asked ==> brk == old(brk) && owner.Keys == old(owner).Keys
      ensures ap != 0 && asked ==>
        brk == old(brk) + Grown(Units(nbytes)) && owner.Keys == old(owner).Keys + Span(old(brk), brk)
      ensures asked <==> old(freep) == 0 || NoFit(old(size), old(ring), Units(nbytes))
      ensures !asked ==> TakenFrom(old(size), old(ring), old(freep), Units(nbytes), i, ap, freep)
    {
      var nunits := UnitsFor(nbytes);
      Start();
      var z, q, f, e;
      ghost var r, l, o;
      ap, asked, z, q, f, e, r, l, o, i :=
        AllocateUnits(size, ptr, freep, brk, nunits, grant, ring, base, live, owner);
      RingPositive(z, q, r, base, f);
      size, ptr, freep, brk := z, q, f, e;
      ring, live, owner := r, l, o;
      assert Started();
    }
  }
}
