/** Console line editing (kernel/console.c): the interrupt handler that fills the input buffer and the reader
    that empties it. */
module Console {
  import opened Basics

  const INPUT_BUF: nat := 128
  const WRAP: nat := 0x1_0000_0000  // r, w and e are 32-bit
  const NEWLINE: int := 10
  const RETURN: int := 13
  const CTRL_D: int := 4
  const CTRL_H: int := 8
  const CTRL_P: int := 16
  const CTRL_U: int := 21
  const DELETE: int := 127

  /** All input ever committed, how many of it the readers have consumed, the line being edited, and all
      bytes ever delivered. The code's w is |committed| and its e is |committed| + |edit|, both wrapped. */
  datatype State = State(committed: seq<Byte>, r: nat, edit: seq<Byte>, delivered: seq<Byte>)

  function Held(s: State): int { |s.committed| + |s.edit| - s.r }

  /** Committed input without the end-of-file marks. */
  function NoEof(s: seq<Byte>): seq<Byte> {
    if s == [] then [] else
    var t := NoEof(s[..|s| - 1]);
    if s[|s| - 1] == CTRL_D then t else t + [s[|s| - 1]]
  }

  predicate EndsLine(c: Byte) { c == NEWLINE || c == CTRL_D }

  /** The buffer is not overrun, the line being edited holds no newline and no ^D, and what was delivered is what
      was committed, in order and once, up to the marks. */
  predicate Inv(s: State) {
    && s.r <= |s.committed| && Held(s) <= INPUT_BUF
    && (forall i :: 0 <= i < |s.edit| ==> !EndsLine(s.edit[i]))
    && s.delivered == NoEof(s.committed[..s.r])
  }

  /** consoleintr: the new state. */
  function Typed(s: State, c: Byte): State {
    if c == CTRL_P then s
    else if c == CTRL_U then s.(edit := [])
    else if c == CTRL_H || c == DELETE then s.(edit := if s.edit == [] then [] else s.edit[..|s.edit| - 1])
    else if c == 0 || Held(s) >= INPUT_BUF then s
    else
      var x: Byte := if c == RETURN then NEWLINE else c;
      if EndsLine(x) || Held(s) + 1 == INPUT_BUF
      then s.(committed := s.committed + s.edit + [x], edit := [])
      else s.(edit := s.edit + [x])
  }

  /** Editing never touches committed input. */
  lemma TypedKeeps(s: State, c: Byte)
    requires Inv(s)
    ensures Inv(Typed(s, c)) && s.committed <= Typed(s, c).committed && Typed(s, c).r == s.r &&
      Typed(s, c).delivered == s.delivered
  {
    assert Typed(s, c).committed[..s.r] == s.committed[..s.r];
  }

  /** The reader's next byte: delivered, or an end-of-file mark that ends the read; a mark after other bytes of the
      same read is left for the next one. */
  function Consumed(s: State, first: bool): State
    requires s.r < |s.committed|
  {
    var c := s.committed[s.r];
    if c != CTRL_D then s.(r := s.r + 1, delivered := s.delivered + [c])
    else if first then s.(r := s.r + 1) else s
  }

  lemma ConsumedKeeps(s: State, first: bool)
    requires Inv(s) && s.r < |s.committed|
    ensures Inv(Consumed(s, first))
  {
    assert s.committed[..s.r + 1][..s.r] == s.committed[..s.r];
  }

  // ---------------------------------------------------------------- whole runs

  datatype Event = Type(c: Byte) | Consume(first: bool)

  predicate Enabled(s: State, e: Event) { e.Consume? ==> s.r < |s.committed| }

  function Apply(s: State, e: Event): State
    requires Enabled(s, e)
  {
    match e
    case Type(c) => Typed(s, c)
    case Consume(first) => Consumed(s, first)
  }

  ghost predicate IsRun(ss: seq<State>, es: seq<Event>) {
    && |ss| == |es| + 1 && ss[0] == State([], 0, [], [])
    && forall i :: 0 <= i < |es| ==> Enabled(ss[i], es[i]) && ss[i + 1] == Apply(ss[i], es[i])
  }

  /** On every run, what the readers got is the committed input up to r, in order and once, without the ^D marks;
      the buffer holds at most INPUT_BUF characters; and committed input is never taken back. */
  lemma {:induction false} DeliveredInOrder(ss: seq<State>, es: seq<Event>, j: nat, k: nat)
    requires IsRun(ss, es) && j <= k <= |es|
    ensures Inv(ss[k]) && ss[k].delivered == NoEof(ss[k].committed[..ss[k].r]) && Held(ss[k]) <= INPUT_BUF
    ensures ss[j].committed <= ss[k].committed && ss[j].delivered <= ss[k].delivered && ss[j].r <= ss[k].r
    decreases k
  {
    if k == 0 {
    } else {
      DeliveredInOrder(ss, es, if j == k then k - 1 else j, k - 1);
      var s, e := ss[k - 1], es[k - 1];
      if e.Type? { TypedKeeps(s, e.c); } else { ConsumedKeeps(s, e.first); }
      assert ss[k - 1 + 1] == Apply(s, e);
    }
  }

  // ---------------------------------------------------------------- what was typed

  /** Everything up to and including the last newline or ^D. */
  function WholeLines(t: seq<Byte>): (r: seq<Byte>)
    ensures r <= t && (r == [] || EndsLine(r[|r| - 1]))
  {
    if t == [] || EndsLine(t[|t| - 1]) then t else WholeLines(t[..|t| - 1])
  }

  /** What one more key makes of the text typed so far: ^U takes back the unfinished line, backspace its last
      character, and carriage return is a newline. */
  function Edited(t: seq<Byte>, c: Byte): seq<Byte> {
    if c == 0 || c == 16 then t
    else if c == 21 then WholeLines(t)
    else if c == 8 || c == 127 then if WholeLines(t) == t then t else t[..|t| - 1]
    else if c == 13 then t + [10]
    else t + [c]
  }

  /** The text that the first k events leave, for a keyboard with an unbounded buffer. */
  ghost function Text(es: seq<Event>, k: nat): seq<Byte>
    requires k <= |es|
  {
    if k == 0 then [] else if es[k - 1].Type? then Edited(Text(es, k - 1), es[k - 1].c) else Text(es, k - 1)
  }

  lemma {:induction false} LinesAre(lines: seq<Byte>, edit: seq<Byte>)
    requires lines == [] || EndsLine(lines[|lines| - 1])
    requires forall i :: 0 <= i < |edit| ==> !EndsLine(edit[i])
    ensures WholeLines(lines + edit) == lines
    decreases |edit|
  {
    var t := lines + edit;
    if edit == [] {
      assert t == lines;
    } else {
      assert t[|t| - 1] == edit[|edit| - 1] && t[..|t| - 1] == lines + edit[..|edit| - 1];
      LinesAre(lines, edit[..|edit| - 1]);
    }
  }

  /** Committed input is the finished lines. */
  predicate Split(s: State, t: seq<Byte>) { s.committed + s.edit == t && s.committed == WholeLines(t) }

  lemma TypedEdits(s: State, t: seq<Byte>, c: Byte)
    requires Inv(s) && Split(s, t) && Held(s) + 1 < INPUT_BUF
    ensures Split(Typed(s, c), Edited(t, c))
  {
    if c == CTRL_H || c == DELETE {
      EraseEdits(s, t);
    } else if c == CTRL_U {
      LinesAre(s.committed, []);
      assert s.committed + [] == s.committed;
    } else if c != CTRL_P && c != 0 {
      AppendEdits(s, t, if c == RETURN then NEWLINE else c);
    }
  }

  lemma EraseEdits(s: State, t: seq<Byte>)
    requires Inv(s) && Split(s, t)
    ensures s.edit == [] <==> WholeLines(t) == t
    ensures s.edit != [] ==> Split(s.(edit := s.edit[..|s.edit| - 1]), t[..|t| - 1])
  {
    var n := |s.edit|;
    if n == 0 {
      assert t == s.committed;
    } else {
      assert |WholeLines(t)| < |t| && t[..|t| - 1] == s.committed + s.edit[..n - 1];
      LinesAre(s.committed, s.edit[..n - 1]);
    }
  }

  lemma AppendEdits(s: State, t: seq<Byte>, x: Byte)
    requires Inv(s) && Split(s, t)
    ensures EndsLine(x) ==> Split(s.(committed := s.committed + s.edit + [x], edit := []), t + [x])
    ensures !EndsLine(x) ==> Split(s.(edit := s.edit + [x]), t + [x])
  {
    if EndsLine(x) {
      assert (t + [x]) + [] == t + [x];
    } else {
      assert s.committed + (s.edit + [x]) == t + [x];
      LinesAre(s.committed, s.edit + [x]);
    }
  }

  /** On every run whose buffer never fills, the input is the text typed as the editing keys leave it, of which exactly
      the finished lines are committed. */
  lemma {:induction false} InputIsText(ss: seq<State>, es: seq<Event>, k: nat)
    requires IsRun(ss, es) && k <= |es| && forall j :: 0 <= j < k ==> Held(ss[j]) + 1 < INPUT_BUF
    ensures ss[k].committed + ss[k].edit == Text(es, k) && ss[k].committed == WholeLines(Text(es, k))
    decreases k
  {
    if k == 0 {
    } else {
      InputIsText(ss, es, k - 1);
      DeliveredInOrder(ss, es, k - 1, k - 1);
      var s, e := ss[k - 1], es[k - 1];
      assert ss[k - 1 + 1] == Apply(s, e);
      if e.Type? { TypedEdits(s, Text(es, k - 1), e.c); }
    }
  }

  predicate EditingKey(c: Byte) { c == 0 || c == 8 || c == 16 || c == 21 || c == 127 }

  /** The characters typed, with carriage return as newline. */
  ghost function Characters(es: seq<Event>, k: nat): seq<Byte>
    requires k <= |es|
  {
    if k == 0 then [] else
    var e := es[k - 1];
    Characters(es, k - 1) + if e.Consume? then [] else if e.c == 13 then [10] else [e.c]
  }

  lemma {:induction false} PlainText(es: seq<Event>, k: nat)
    requires k <= |es| && forall j :: 0 <= j < k && es[j].Type? ==> !EditingKey(es[j].c)
    ensures Text(es, k) == Characters(es, k)
    decreases k
  {
    if k > 0 {
      PlainText(es, k - 1);
      assert es[k - 1].Consume? ==> Characters(es, k) == Characters(es, k - 1) + [];
    }
  }

  /** Without editing keys nothing typed is lost, changed or reordered. */
  lemma TypingIsKept(ss: seq<State>, es: seq<Event>, k: nat)
    requires IsRun(ss, es) && k <= |es| && forall j :: 0 <= j < k ==> Held(ss[j]) + 1 < INPUT_BUF
    requires forall j :: 0 <= j < k && es[j].Type? ==> !EditingKey(es[j].c)
    ensures ss[k].committed + ss[k].edit == Characters(es, k)
  {
    InputIsText(ss, es, k);
    PlainText(es, k);
  }

  /** At any point of any run a backspace takes back exactly the last character that is not committed, and ^U all of
      them. */
  lemma ErasesOnlyEdit(ss: seq<State>, es: seq<Event>, k: nat)
    requires IsRun(ss, es) && k < |es|
    ensures es[k] == Type(8) || es[k] == Type(127) || es[k] == Type(21) ==> ss[k + 1].committed == ss[k].committed
    ensures es[k] == Type(8) || es[k] == Type(127) ==>
      var was, now := ss[k].edit, ss[k + 1].edit; if was == [] then now == [] else was == now + [was[|was| - 1]]
    ensures es[k] == Type(21) ==> ss[k + 1].edit == []
  {
  }

  // ---------------------------------------------------------------- the code

  /** The ring holds the input from position lo on. */
  predicate Ring(buf: seq<Byte>, input: seq<Byte>, lo: nat) {
    |buf| == INPUT_BUF && forall j :: lo <= j < |input| ==> buf[j % INPUT_BUF] == input[j]
  }

  lemma RingPut(buf: seq<Byte>, input: seq<Byte>, lo: nat, x: Byte)
    requires Ring(buf, input, lo) && lo <= |input| < lo + INPUT_BUF
    ensures Ring(buf[|input| % INPUT_BUF := x], input + [x], lo)
  {
    forall j | lo <= j < |input| ensures j % INPUT_BUF != |input| % INPUT_BUF {}
  }

  lemma RingDrop(buf: seq<Byte>, input: seq<Byte>, lo: nat, n: nat)
    requires Ring(buf, input, lo) && n <= |input|
    ensures Ring(buf, input[..n], lo)
  {
  }

  lemma SlotOf(x: nat)
    ensures (x % WRAP) % INPUT_BUF == x % INPUT_BUF
  {
  }

  lemma Distance(lo: nat, hi: nat)
    requires lo <= hi <= lo + INPUT_BUF
    ensures (hi % WRAP - lo % WRAP) % WRAP == hi - lo
  {
    var q, p := lo / WRAP, hi / WRAP;
    assert lo == q * WRAP + lo % WRAP && hi == p * WRAP + hi % WRAP;
    assert p == q || p == q + 1;
    var d := hi % WRAP - lo % WRAP;
    assert p == q ==> d == hi - lo;
    assert p == q + 1 ==> d + WRAP == hi - lo;
  }

  /** Wrapped counters tell the slot, the distance and equality. */
  lemma Counters(lo: nat, hi: nat)
    requires lo <= hi <= lo + INPUT_BUF
    ensures (hi % WRAP - lo % WRAP) % WRAP == hi - lo
    ensures lo % WRAP == hi % WRAP <==> lo == hi
    ensures (lo % WRAP) % INPUT_BUF == lo % INPUT_BUF && (hi % WRAP) % INPUT_BUF == hi % INPUT_BUF
  {
    SlotOf(lo);
    SlotOf(hi);
    Distance(lo, hi);
  }

  lemma Step(x: nat)
    ensures (x % WRAP + 1) % WRAP == (x + 1) % WRAP
    ensures x > 0 ==> (x % WRAP - 1) % WRAP == (x - 1) % WRAP
  {
  }

  class ConsoleBuf {
    const buf: array<Byte>
    var r: nat
    var w: nat
    var e: nat
    ghost var s: State

    ghost predicate Valid()
      reads this, buf
    {
      && Inv(s) && r == s.r % WRAP && w == |s.committed| % WRAP && e == (|s.committed| + |s.edit|) % WRAP
      && Ring(buf[..], s.committed + s.edit, s.r)
    }

    constructor ()
      ensures Valid() && s == State([], 0, [], []) && fresh(buf)
    {
      buf := new Byte[INPUT_BUF](_ => 0);
      r, w, e, s := 0, 0, 0, State([], 0, [], []);
    }

    /** cons.e-- : one character of the line goes. */
    method Erase()
      requires Valid() && s.edit != []
      modifies this
      ensures Valid() && s == old(s).(edit := old(s).edit[..|old(s).edit| - 1])
    {
      Step(|s.committed| + |s.edit|);
      RingDrop(buf[..], s.committed + s.edit, s.r, |s.committed| + |s.edit| - 1);
      assert (s.committed + s.edit)[..|s.committed| + |s.edit| - 1] == s.committed + s.edit[..|s.edit| - 1];
      e := (e - 1) % WRAP;
      s := s.(edit := s.edit[..|s.edit| - 1]);
    }

    /** The loop of ^U: since the line holds no newline it brings e all the way back to w. */
    method KillLine()
      requires Valid()
      modifies this
      ensures Valid() && s == old(s).(edit := []) && e == w
    {
      LineCounters();
      while e != w && buf[((e - 1) % WRAP) % INPUT_BUF] != NEWLINE
        invariant Valid() && s == old(s).(edit := s.edit) && s.edit <= old(s).edit
        decreases |s.edit|
      {
        LineCounters();
        Erase();
      }
      LineCounters();
    }

    ghost method LineCounters()
      requires Valid()
      ensures e == w <==> s.edit == []
      ensures s.edit != [] ==> buf[((e - 1) % WRAP) % INPUT_BUF] != NEWLINE
    {
      var W, E := |s.committed|, |s.committed| + |s.edit|;
      Counters(W, E);
      Step(E);
      if s.edit != [] {
        Counters(W, E - 1);
        assert (s.committed + s.edit)[E - 1] == s.edit[|s.edit| - 1];
      }
    }

    /** cons.buf[cons.e++ % INPUT_BUF] = c. */
    method Store(c: Byte)
      requires Valid() && Held(s) < INPUT_BUF
      modifies this`e, buf
      ensures e == (|s.committed| + |s.edit| + 1) % WRAP && Ring(buf[..], s.committed + s.edit + [c], s.r)
    {
      ghost var E: nat := |s.committed| + |s.edit|;
      RingPut(buf[..], s.committed + s.edit, s.r, c);
      SlotOf(E);
      Step(E);
      buf[e % INPUT_BUF] := c;
      assert buf[..] == old(buf[..])[E % INPUT_BUF := c];
      e := (e + 1) % WRAP;
    }

    /** The default case of consoleintr. */
    method Append(c: Byte)
      requires Valid() && Held(s) < INPUT_BUF
      modifies this, buf
      ensures Valid()
      ensures s == if EndsLine(c) ||
        Held(old(s)) + 1 == INPUT_BUF then old(s).(committed := old(s).committed + old(s).edit + [c], edit := [])
                   else old(s).(edit := old(s).edit + [c])
    {
      ghost var E: nat := |s.committed| + |s.edit|;
      ghost var input := s.committed + s.edit;
      Store(c);
      var full := (e - r) % WRAP == INPUT_BUF;
      assert full <==> E + 1 == s.r + INPUT_BUF by { Distance(s.r, E + 1); }
      if c == NEWLINE || c == CTRL_D || full {
        w := e;
        assert s.committed + s.edit + [c] + [] == input + [c];
        s := s.(committed := s.committed + s.edit + [c], edit := []);
        assert s.committed[..s.r] == old(s).committed[..s.r];
      } else {
        assert s.committed + (s.edit + [c]) == input + [c];
        s := s.(edit := s.edit + [c]);
      }
    }

    /** consoleintr. */
    method Interrupt(c: Byte)
      requires Valid()
      modifies this, buf
      ensures Valid() && s == Typed(old(s), c)
    {
      Counters(s.r, |s.committed| + |s.edit|);
      LineCounters();
      if c == CTRL_P {
      } else if c == CTRL_U {
        KillLine();
      } else if c == CTRL_H || c == DELETE {
        if e != w { Erase(); }
      } else if c != 0 && (e - r) % WRAP < INPUT_BUF {
        Append(if c == RETURN then NEWLINE else c);
      }
    }

    /** One turn of the loop in consoleread, when there is committed input. */
    method Take(first: bool) returns (c: Byte)
      requires Valid() && s.r < |s.committed|
      modifies this
      ensures Valid() && c == old(s).committed[old(s).r] && s == Consumed(old(s), first)
    {
      Counters(s.r, |s.committed|);
      Step(s.r);
      Step(s.r + 1);
      ConsumedKeeps(s, first);
      c := buf[r % INPUT_BUF];
      assert (s.committed + s.edit)[s.r] == s.committed[s.r] && buf[..][s.r % INPUT_BUF] == c;
      r := (r + 1) % WRAP;
      if c == CTRL_D && !first { r := (r - 1) % WRAP; }
      s := Consumed(s, first);
    }

    /** consoleread from its lock, or from waking up, to its return or its next sleep: at most one line, in order. */
    method Read(n: nat, target: nat) returns (out: seq<Byte>, asleep: bool)
      requires Valid() && n <= target
      modifies this
      ensures Valid() && |out| <= n && s.delivered == old(s).delivered + out && s.committed == old(s).committed &&
        s.edit == old(s).edit
      ensures asleep ==> s.r == |s.committed| && |out| < n
      ensures forall i :: 0 <= i < |out| - 1 ==> out[i] != NEWLINE
      ensures !asleep && |out| < n ==>
        (out != [] && out[|out| - 1] == NEWLINE) || EofAt(old(s).committed, s.r, out == [] && n == target)
    {
      out, asleep := [], false;
      while |out| < n
        invariant Valid() && |out| <= n && s.committed == old(s).committed && s.edit == old(s).edit
        invariant s.delivered == old(s).delivered + out && NEWLINE !in out
        decreases n - |out|
      {
        Counters(s.r, |s.committed|);
        if r == w { return out, true; }
        var c := Take(n - |out| == target);
        if c == CTRL_D { return; }
        out := out + [c];
        if c == NEWLINE { return; }
      }
    }
  }

  /** The read ended at a ^D: before r when the read had delivered nothing, else at r, left for the next read. */
  predicate EofAt(input: seq<Byte>, r: nat, first: bool) {
    if first then 0 < r <= |input| && input[r - 1] == CTRL_D else r < |input| && input[r] == CTRL_D
  }
}
