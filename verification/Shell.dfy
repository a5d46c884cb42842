/** The shell's command parser (user/sh.c): tokens, the recursive descent, and nulterminate. The line is its
    characters up to the terminating NUL, which lies at index |b|. */
module Shell {
  const MAXARGS: nat := 10

  /** A parsed command. W is a pair of positions in the line for the parser and a string for the reader. */
  datatype Cmd<W> =
    | Exec(args: seq<W>)
    | Redir(cmd: Cmd<W>, file: W, mode: int, fd: int)
    | Pipe(left: Cmd<W>, right: Cmd<W>)
    | List(first: Cmd<W>, rest: Cmd<W>)
    | Back(job: Cmd<W>)

  datatype Span = Span(q: nat, eq: nat)

  /** A panic prints its message and exits. */
  datatype Parsed = Ok(cmd: Cmd<Span>, pos: nat) | Panic(why: string)

  datatype Token = Token(kind: char, q: nat, eq: nat, next: nat)

  // ---------------------------------------------------------------- characters and tokens

  predicate White(c: char) { c == ' ' || c == '\t' || c == '\r' || c == '\n' || c == '\U{B}' }

  predicate Symbol(c: char) { c == '<' || c == '|' || c == '>' || c == '&' || c == ';' || c == '(' || c == ')' }

  predicate StartsRedir(c: char) { c == '<' || c == '>' }

  predicate EndsArgs(c: char) { c == '|' || c == ')' || c == '&' || c == ';' }

  predicate WordChar(c: char) { c != '\0' && !White(c) && !Symbol(c) }

  predicate Line(b: string) { '\0' !in b }

  function At(b: string, s: nat): char { if s < |b| then b[s] else '\0' }

  function Skip(b: string, s: nat): (r: nat)
    requires s <= |b|
    ensures s <= r <= |b| && !White(At(b, r))
    decreases |b| - s
  {
    if s < |b| && White(b[s]) then Skip(b, s + 1) else s
  }

  function WordEnd(b: string, s: nat): (r: nat)
    requires s <= |b| && Line(b)
    ensures s <= r <= |b| && !WordChar(At(b, r)) && (s < |b| && WordChar(b[s]) ==> s < r)
    decreases |b| - s
  {
    if s < |b| && WordChar(b[s]) then WordEnd(b, s + 1) else s
  }

  /** gettoken. */
  function GetToken(b: string, s: nat): (t: Token)
    requires s <= |b| && Line(b)
    ensures s <= t.q <= t.eq <= t.next <= |b| && !White(At(b, t.next))
    ensures t.kind == '\0' <==> t.q == |b|
    ensures t.kind != '\0' ==> t.q < t.eq
  {
    var q := Skip(b, s);
    if q == |b| then Token('\0', q, q, q)
    else if b[q] == '>' && At(b, q + 1) == '>' then Token('+', q, q + 2, Skip(b, q + 2))
    else if Symbol(b[q]) then Token(b[q], q, q + 1, Skip(b, q + 1))
    else Token('a', q, WordEnd(b, q), Skip(b, WordEnd(b, q)))
  }

  /** The span is a whole word of the line: word characters up to one that is not. */
  predicate IsWord(b: string, w: Span) {
    w.q < w.eq <= |b| && !WordChar(At(b, w.eq)) && forall i :: w.q <= i < w.eq ==> WordChar(b[i])
  }

  // ---------------------------------------------------------------- the grammar

  function Mode(kind: char): int { if kind == '<' then 0 else if kind == '>' then 0x601 else 0x201 }

  function Fd(kind: char): int { if kind == '<' then 0 else 1 }

  /** The redirections found after one another, innermost first. */
  datatype Redirs = Found(files: seq<(Span, char)>, pos: nat) | Missing

  function Wrap<W>(cmd: Cmd<W>, files: seq<(W, char)>): Cmd<W> {
    if files == [] then cmd
    else var f := files[|files| - 1]; Redir(Wrap(cmd, files[..|files| - 1]), f.0, Mode(f.1), Fd(f.1))
  }

  function ParseRedirs(b: string, s: nat, files: seq<(Span, char)>): (r: Redirs)
    requires s <= |b| && Line(b)
    ensures r.Found? ==> s <= r.pos <= |b| && !White(At(b, r.pos))
    decreases |b| - s
  {
    var s1 := Skip(b, s);
    if !StartsRedir(At(b, s1)) then Found(files, s1) else
    var t := GetToken(b, s1);
    var f := GetToken(b, t.next);
    if f.kind != 'a' then Missing
    else ParseRedirs(b, f.next, files + [(Span(f.q, f.eq), t.kind)])
  }

  /** The loop of parseexec. */
  function ParseArgs(b: string, s: nat, args: seq<Span>, files: seq<(Span, char)>): (r: Parsed)
    requires s <= |b| && Line(b)
    ensures r.Ok? ==> s <= r.pos <= |b| && !White(At(b, r.pos))
    decreases |b| - s
  {
    var s1 := Skip(b, s);
    if EndsArgs(At(b, s1)) then Ok(Wrap(Exec(args), files), s1) else
    var t := GetToken(b, s1);
    if t.kind == '\0' then Ok(Wrap(Exec(args), files), t.next)
    else if t.kind != 'a' then Panic("syntax")
    else if |args| + 1 >= MAXARGS then Panic("too many args")
    else match ParseRedirs(b, t.next, files)
      case Missing => Panic("missing file for redirection")
      case Found(more, s2) => ParseArgs(b, s2, args + [Span(t.q, t.eq)], more)
  }

  function ParseExec(b: string, s: nat): (r: Parsed)
    requires s <= |b| && Line(b)
    ensures r.Ok? ==> s <= r.pos <= |b| && !White(At(b, r.pos))
    decreases |b| - s, 1
  {
    var s1 := Skip(b, s);
    if At(b, s1) == '(' then ParseBlock(b, s1)
    else match ParseRedirs(b, s1, [])
      case Missing => Panic("missing file for redirection")
      case Found(files, s2) => ParseArgs(b, s2, [], files)
  }

  function ParseBlock(b: string, s: nat): (r: Parsed)
    requires s < |b| && Line(b) && b[s] == '('
    ensures r.Ok? ==> s <= r.pos <= |b| && !White(At(b, r.pos))
    decreases |b| - s, 0
  {
    var t := GetToken(b, s);
    var c := ParseLine(b, t.next);
    if c.Panic? then c else
    var s1 := Skip(b, c.pos);
    if At(b, s1) != ')' then Panic("syntax - missing )")
    else match ParseRedirs(b, GetToken(b, s1).next, [])
      case Missing => Panic("missing file for redirection")
      case Found(files, s2) => Ok(Wrap(c.cmd, files), s2)
  }

  function ParsePipe(b: string, s: nat): (r: Parsed)
    requires s <= |b| && Line(b)
    ensures r.Ok? ==> s <= r.pos <= |b| && !White(At(b, r.pos))
    decreases |b| - s, 2
  {
    var c := ParseExec(b, s);
    if c.Panic? then c else
    var s1 := Skip(b, c.pos);
    if At(b, s1) != '|' then Ok(c.cmd, s1) else
    var d := ParsePipe(b, GetToken(b, s1).next);
    if d.Panic? then d else Ok(Pipe(c.cmd, d.cmd), d.pos)
  }

  /** The loop of parseline over '&'. */
  function ParseBacks(b: string, s: nat, cmd: Cmd<Span>): (r: Parsed)
    requires s <= |b| && Line(b)
    ensures r.Ok? && s <= r.pos <= |b| && !White(At(b, r.pos))
    decreases |b| - s
  {
    var s1 := Skip(b, s);
    if At(b, s1) == '&' then ParseBacks(b, GetToken(b, s1).next, Back(cmd)) else Ok(cmd, s1)
  }

  function ParseLine(b: string, s: nat): (r: Parsed)
    requires s <= |b| && Line(b)
    ensures r.Ok? ==> s <= r.pos <= |b| && !White(At(b, r.pos))
    decreases |b| - s, 3
  {
    var c := ParsePipe(b, s);
    if c.Panic? then c else
    var k := ParseBacks(b, c.pos, c.cmd);
    if At(b, k.pos) != ';' then k else
    var d := ParseLine(b, GetToken(b, k.pos).next);
    if d.Panic? then d else Ok(List(k.cmd, d.cmd), d.pos)
  }

  /** parsecmd up to nulterminate. */
  function ParseCmd(b: string): (r: Parsed)
    requires Line(b)
    ensures r.Ok? ==> r.pos == |b|
  {
    var c := ParseLine(b, 0);
    if c.Panic? then c
    else if Skip(b, c.pos) != |b| then Panic("syntax")
    else Ok(c.cmd, |b|)
  }

  // ---------------------------------------------------------------- commands as text

  function Cut(b: string, w: Span): string { if w.q <= w.eq <= |b| then b[w.q..w.eq] else "" }

  function Cuts(b: string, args: seq<Span>): (r: seq<string>)
    ensures |r| == |args| && forall i :: 0 <= i < |r| ==> r[i] == Cut(b, args[i])
  {
    seq(|args|, i requires 0 <= i < |args| => Cut(b, args[i]))
  }

  /** The command with its strings read off the line. */
  function Text(b: string, c: Cmd<Span>): Cmd<string> {
    match c
    case Exec(args) => Exec(Cuts(b, args))
    case Redir(d, f, mode, fd) => Redir(Text(b, d), Cut(b, f), mode, fd)
    case Pipe(l, r) => Pipe(Text(b, l), Text(b, r))
    case List(l, r) => List(Text(b, l), Text(b, r))
    case Back(d) => Back(Text(b, d))
  }

  // ---------------------------------------------------------------- written lines

  /** The three redirections. */
  datatype Op = From | To | Onto

  /** What a simple command is written with: words and redirections, each with the blanks after it. */
  datatype Piece = Word(w: string, gap: string) | File(op: Op, sep: string, f: string, gap: string)

  datatype Pieces = Nil | Cons(head: Piece, tail: Pieces)

  /** A simple command or a group, after its leading blanks. */
  datatype Part = Simple(lead: string, pieces: Pieces) | Block(lead: string, body: Row, gap: string,
    files: Pieces)

  /** Parts joined by '|'. */
  datatype Chain = One(part: Part) | Piped(part: Part, chain: Chain)

  /** Chains, each followed by any number of '&' with the blanks after each, joined by ';'. */
  datatype Row = Last(job: Chain, backs: seq<string>) | Then(job: Chain, backs: seq<string>, row: Row)

  function ShowOp(op: Op): string {
    match op
    case From => "<"
    case To => ">"
    case Onto => ">>"
  }

  function ShowPiece(p: Piece): string {
    match p
    case Word(w, gap) => w + gap
    case File(op, sep, f, gap) => (ShowOp(op) + sep) + (f + gap)
  }

  function ShowPieces(ps: Pieces): string {
    if ps.Nil? then "" else ShowPiece(ps.head) + ShowPieces(ps.tail)
  }

  function ShowPart(u: Part): string {
    match u
    case Simple(lead, pieces) => lead + ShowPieces(pieces)
    case Block(lead, body, gap, files) => lead + ("(" + (ShowRow(body) + (")" + (gap + ShowPieces(files)))))
  }

  function ShowChain(c: Chain): string {
    match c
    case One(u) => ShowPart(u)
    case Piped(u, d) => ShowPart(u) + ("|" + ShowChain(d))
  }

  function ShowBacks(backs: seq<string>): string {
    if backs == [] then "" else "&" + (backs[0] + ShowBacks(backs[1..]))
  }

  /** The text of a line. */
  function ShowRow(r: Row): string {
    match r
    case Last(c, backs) => ShowChain(c) + ShowBacks(backs)
    case Then(c, backs, d) => ShowChain(c) + (ShowBacks(backs) + (";" + ShowRow(d)))
  }

  predicate Blank(w: string) { forall i :: 0 <= i < |w| ==> White(w[i]) }

  predicate LegalWord(w: string) { w != "" && forall i :: 0 <= i < |w| ==> WordChar(w[i]) }

  predicate LegalPiece(p: Piece) {
    match p
    case Word(w, gap) => LegalWord(w) && Blank(gap)
    case File(_, sep, f, gap) => Blank(sep) && LegalWord(f) && Blank(gap)
  }

  /** Legal words and files, with a blank wherever two words would run together. */
  predicate LegalPieces(ps: Pieces) {
    ps.Nil? ||
    (LegalPiece(ps.head) && (ps.tail.Cons? && ps.tail.head.Word? ==> ps.head.gap != "") && LegalPieces(ps.tail))
  }

  predicate LegalPart(u: Part) {
    match u
    case Simple(lead, pieces) => Blank(lead) && LegalPieces(pieces)
    case Block(lead, body, gap, files) =>
      Blank(lead) && LegalRow(body) && Blank(gap) && LegalPieces(files) && WordsIn(files) == []
  }

  predicate LegalChain(c: Chain) {
    match c
    case One(u) => LegalPart(u)
    case Piped(u, d) => LegalPart(u) && LegalChain(d)
  }

  predicate LegalBacks(backs: seq<string>) { forall i :: 0 <= i < |backs| ==> Blank(backs[i]) }

  predicate LegalRow(r: Row) {
    match r
    case Last(c, backs) => LegalChain(c) && LegalBacks(backs)
    case Then(c, backs, d) => LegalChain(c) && LegalBacks(backs) && LegalRow(d)
  }

  // What a line means, read off its writing.

  datatype Meaning = Means(cmd: Cmd<string>) | TooMany

  function WordsIn(ps: Pieces): seq<string> {
    if ps.Nil? then [] else (if ps.head.Word? then [ps.head.w] else []) + WordsIn(ps.tail)
  }

  /** '<' opens standard input for reading; '>' truncates and '>>' keeps the file that gets standard output. */
  function Opened(c: Cmd<string>, op: Op, f: string): Cmd<string> {
    match op
    case From => Redir(c, f, 0, 0)
    case To => Redir(c, f, 0x601, 1)
    case Onto => Redir(c, f, 0x201, 1)
  }

  /** The redirections around c, the first one written innermost. */
  function Redirected(c: Cmd<string>, ps: Pieces): Cmd<string>
    decreases ps
  {
    if ps.Nil? then c
    else Redirected(if ps.head.File? then Opened(c, ps.head.op, ps.head.f) else c, ps.tail)
  }

  function PartMeans(u: Part): Meaning {
    match u
    case Simple(_, pieces) =>
      if |WordsIn(pieces)| < MAXARGS then Means(Redirected(Exec(WordsIn(pieces)), pieces)) else TooMany
    case Block(_, body, _, files) => GroupMeaning(RowMeans(body), files)
  }

  function GroupMeaning(inner: Meaning, ps: Pieces): Meaning {
    if inner.TooMany? then TooMany else Means(Redirected(inner.cmd, ps))
  }

  function ChainMeans(c: Chain): Meaning {
    match c
    case One(u) => PartMeans(u)
    case Piped(u, d) => BothMean(PartMeans(u), ChainMeans(d), true)
  }

  function BothMean(l: Meaning, r: Meaning, pipe: bool): Meaning {
    if l.TooMany? || r.TooMany? then TooMany else Means(if pipe then Pipe(l.cmd, r.cmd) else List(l.cmd, r.cmd))
  }

  function InBack(l: Meaning, n: nat): Meaning
    decreases n
  {
    if n == 0 || l.TooMany? then l else InBack(Means(Back(l.cmd)), n - 1)
  }

  function RowMeans(r: Row): Meaning {
    match r
    case Last(c, backs) => InBack(ChainMeans(c), |backs|)
    case Then(c, backs, d) => BothMean(InBack(ChainMeans(c), |backs|), RowMeans(d), false)
  }

  // ---------------------------------------------------------------- what the parser makes of a written line

  function Key(z: int): int { z }

  /** The line reads w at s. (The bound variable keeps the text folded until it is asked for.) */
  ghost predicate Reads(b: string, s: nat, w: string) {
    s + |w| <= |b| && forall z: int {:trigger Key(z)} :: z == 0 ==> Same(b, s, w)
  }

  predicate Same(b: string, s: nat, w: string) {
    s + |w| <= |b| && forall i {:trigger w[i]} :: 0 <= i < |w| ==> w[i] == b[s + i]
  }

  lemma ReadsBoth(b: string, s: nat, v: string, w: string)
    requires Reads(b, s, v + w)
    ensures Reads(b, s, v) && Reads(b, s + |v|, w)
  {
    assert Key(0) == 0 && Same(b, s, v + w);
    forall i | 0 <= i < |v| ensures v[i] == b[s + i] { assert (v + w)[i] == v[i]; }
    forall i | 0 <= i < |w| ensures w[i] == b[s + |v| + i] { assert (v + w)[|v| + i] == w[i]; }
  }

  lemma ReadsChar(b: string, s: nat, w: string, i: nat)
    requires Reads(b, s, w) && i < |w|
    ensures b[s + i] == w[i]
  {
    assert Key(0) == 0 && Same(b, s, w);
  }

  lemma ReadsSymbol(b: string, s: nat, c: char, w: string)
    requires Reads(b, s, [c] + w)
    ensures At(b, s) == c && Reads(b, s + 1, w)
  {
    ReadsBoth(b, s, [c], w);
    ReadsChar(b, s, [c], 0);
  }

  lemma ReadsJoined(b: string, s: nat, v: string, c: char, w: string)
    requires Reads(b, s, v + ([c] + w))
    ensures Reads(b, s, v) && At(b, s + |v|) == c && Reads(b, s + |v| + 1, w)
  {
    ReadsBoth(b, s, v, [c] + w);
    ReadsSymbol(b, s + |v|, c, w);
  }

  lemma {:induction false} SkipBlank(b: string, s: nat, w: string)
    requires Reads(b, s, w) && Blank(w) && !White(At(b, s + |w|))
    ensures Skip(b, s) == s + |w|
    decreases |w|
  {
    if w != "" {
      assert w == [w[0]] + w[1..];
      ReadsSymbol(b, s, w[0], w[1..]);
      SkipBlank(b, s + 1, w[1..]);
    }
  }

  lemma {:induction false} WordEndIs(b: string, s: nat, e: nat)
    requires Line(b) && s <= e <= |b| && !WordChar(At(b, e)) && forall i :: s <= i < e ==> WordChar(b[i])
    ensures WordEnd(b, s) == e
    decreases e - s
  {
    if s < e { WordEndIs(b, s + 1, e); }
  }

  lemma WordInside(b: string, s: nat, w: string)
    requires Reads(b, s, w) && LegalWord(w)
    ensures forall i :: s <= i < s + |w| ==> WordChar(b[i])
    ensures Cut(b, Span(s, s + |w|)) == w
  {
    forall i | s <= i < s + |w| ensures b[i] == w[i - s] && WordChar(b[i]) { ReadsChar(b, s, w, i - s); }
    assert b[s..s + |w|] == w;
  }

  /** A word, the blanks after it, and something else. */
  lemma ReadsWord(b: string, s: nat, w: string, gap: string, n: nat)
    requires Line(b) && Reads(b, s, w + gap) && LegalWord(w) && Blank(gap) && n == s + |w| + |gap|
    requires !White(At(b, n)) && (gap == "" ==> !WordChar(At(b, n)))
    ensures WordChar(At(b, s)) && GetToken(b, s) == Token('a', s, s + |w|, n)
    ensures Cut(b, Span(s, s + |w|)) == w
  {
    var e := s + |w|;
    ReadsBoth(b, s, w, gap);
    WordInside(b, s, w);
    assert !WordChar(At(b, e)) by { if gap != "" { ReadsChar(b, e, gap, 0); } }
    WordEndIs(b, s, e);
    SkipBlank(b, e, gap);
  }

  function Kind(op: Op): char {
    match op
    case From => '<'
    case To => '>'
    case Onto => '+'
  }

  lemma ReadsOp(b: string, s: nat, op: Op, sep: string, n: nat)
    requires Line(b) && Reads(b, s, ShowOp(op) + sep) && Blank(sep) && n == s + |ShowOp(op)| + |sep|
    requires WordChar(At(b, n))
    ensures StartsRedir(At(b, s)) && Skip(b, s) == s
    ensures GetToken(b, s).kind == Kind(op) && GetToken(b, s).next == n
  {
    ReadsBoth(b, s, ShowOp(op), sep);
    ReadsChar(b, s, ShowOp(op), 0);
    if op.Onto? { ReadsChar(b, s, ShowOp(op), 1); }
    if sep != "" { ReadsChar(b, s + |ShowOp(op)|, sep, 0); }
    SkipBlank(b, s + |ShowOp(op)|, sep);
  }

  /** Where a simple command ends. */
  predicate Sep(b: string, s: nat) { s == |b| || (s < |b| && EndsArgs(b[s])) }

  lemma PiecesStart(b: string, s: nat, ps: Pieces, e: nat)
    requires LegalPieces(ps) && Reads(b, s, ShowPieces(ps)) && e == s + |ShowPieces(ps)| && Sep(b, e)
    ensures !White(At(b, s)) && At(b, s) != '('
    ensures WordChar(At(b, s)) ==> ps.Cons? && ps.head.Word?
  {
    if ps.Cons? {
      assert ShowPieces(ps)[0] == if ps.head.Word? then ps.head.w[0] else ShowOp(ps.head.op)[0];
      ReadsChar(b, s, ShowPieces(ps), 0);
    }
  }

  /** The parse agrees with the meaning and ends at e. */
  predicate Gives(b: string, r: Parsed, want: Meaning, e: nat) {
    match want
    case TooMany => r == Panic("too many args")
    case Means(c) => r.Ok? && r.pos == e && Text(b, r.cmd) == c
  }

  function CutFiles(b: string, files: seq<(Span, char)>): (r: seq<(string, char)>)
    ensures |r| == |files| && forall i :: 0 <= i < |r| ==> r[i] == (Cut(b, files[i].0), files[i].1)
  {
    seq(|files|, i requires 0 <= i < |files| => (Cut(b, files[i].0), files[i].1))
  }

  function FilesIn(ps: Pieces): seq<(string, char)> {
    if ps.Nil? then [] else (if ps.head.File? then [(ps.head.f, Kind(ps.head.op))] else []) + FilesIn(ps.tail)
  }

  lemma {:induction false} WrapText(b: string, c: Cmd<Span>, files: seq<(Span, char)>)
    ensures Text(b, Wrap(c, files)) == Wrap(Text(b, c), CutFiles(b, files))
  {
    if files != [] {
      var n := |files| - 1;
      WrapText(b, c, files[..n]);
      assert CutFiles(b, files)[..n] == CutFiles(b, files[..n]);
    }
  }

  lemma WrapMore<W>(c: Cmd<W>, files: seq<(W, char)>, f: (W, char))
    ensures Wrap(c, files + [f]) == Redir(Wrap(c, files), f.0, Mode(f.1), Fd(f.1))
  {
    assert (files + [f])[..|files|] == files;
  }

  lemma {:induction false} WrapRedirected(c: Cmd<string>, files: seq<(string, char)>, ps: Pieces)
    requires LegalPieces(ps)
    ensures Wrap(c, files + FilesIn(ps)) == Redirected(Wrap(c, files), ps)
    decreases ps
  {
    if ps.Nil? {
      assert files + [] == files;
    } else if ps.head.Word? {
      assert FilesIn(ps) == FilesIn(ps.tail);
      WrapRedirected(c, files, ps.tail);
    } else {
      var f := (ps.head.f, Kind(ps.head.op));
      assert files + FilesIn(ps) == (files + [f]) + FilesIn(ps.tail);
      WrapMore(c, files, f);
      WrapRedirected(c, files + [f], ps.tail);
    }
  }

  lemma {:induction false} Mixed(ps: Pieces)
    requires WordsIn(ps) == [] && ps.Cons?
    ensures ps.head.File? && WordsIn(ps.tail) == []
  {
  }

  /** The piece stands at s and ends at n, where something else begins. */
  ghost predicate PieceAt(b: string, s: nat, p: Piece, n: nat) {
    && Line(b) && LegalPiece(p) && Reads(b, s, ShowPiece(p)) && n == s + |ShowPiece(p)|
    && !White(At(b, n)) && (p.gap == "" ==> !WordChar(At(b, n)))
  }

  /** Its word or file name. */
  function SpanOf(s: nat, p: Piece): Span {
    var q := if p.Word? then s else s + |ShowOp(p.op)| + |p.sep|;
    Span(q, q + |if p.Word? then p.w else p.f|)
  }

  lemma FileText(b: string, s: nat, p: Piece, n: nat, q: nat)
    requires PieceAt(b, s, p, n) && p.File? && q == s + |ShowOp(p.op)| + |p.sep|
    ensures Reads(b, s, ShowOp(p.op) + p.sep) && Reads(b, q, p.f + p.gap) && n == q + |p.f| + |p.gap|
  {
    ReadsBoth(b, s, ShowOp(p.op) + p.sep, p.f + p.gap);
  }

  lemma PieceCut(b: string, s: nat, p: Piece, n: nat)
    requires PieceAt(b, s, p, n)
    ensures Cut(b, SpanOf(s, p)) == if p.Word? then p.w else p.f
  {
    var q, w := SpanOf(s, p).q, if p.Word? then p.w else p.f;
    if p.File? { FileText(b, s, p, n, q); }
    ReadsBoth(b, q, w, p.gap);
    WordInside(b, q, w);
  }

  /** At s the tokens are a redirection of the given kind and the file name w. */
  ghost predicate RedirAt(b: string, s: nat, kind: char, w: Span, n: nat) {
    Line(b) && s <= |b| && n <= |b| && forall z: int {:trigger Key(z)} :: z == 0 ==> RedirTokens(b, s, kind, w, n)
  }

  predicate RedirTokens(b: string, s: nat, kind: char, w: Span, n: nat)
    requires Line(b) && s <= |b|
  {
    && Skip(b, s) == s && StartsRedir(At(b, s)) && GetToken(b, s).kind == kind
    && GetToken(b, GetToken(b, s).next) == Token('a', w.q, w.eq, n)
  }

  lemma FileTokens(b: string, s: nat, p: Piece, n: nat)
    requires PieceAt(b, s, p, n) && p.File?
    ensures RedirAt(b, s, Kind(p.op), SpanOf(s, p), n)
  {
    var q := SpanOf(s, p).q;
    FileText(b, s, p, n, q);
    ReadsWord(b, q, p.f, p.gap, n);
    ReadsOp(b, s, p.op, p.sep, q);
    assert RedirTokens(b, s, Kind(p.op), SpanOf(s, p), n);
  }

  lemma RedirIs(b: string, s: nat, files: seq<(Span, char)>, kind: char, w: Span, n: nat)
    requires RedirAt(b, s, kind, w, n)
    ensures ParseRedirs(b, s, files) == ParseRedirs(b, n, files + [(w, kind)])
  {
    assert Key(0) == 0;
  }

  /** One redirection. */
  lemma RedirStep(b: string, s: nat, files: seq<(Span, char)>, p: Piece, n: nat)
    requires PieceAt(b, s, p, n) && p.File?
    ensures ParseRedirs(b, s, files) == ParseRedirs(b, n, files + [(SpanOf(s, p), Kind(p.op))])
  {
    FileTokens(b, s, p, n);
    RedirIs(b, s, files, Kind(p.op), SpanOf(s, p), n);
  }

  /** The rest of parseexec: redirections, then the loop over the arguments. */
  function Tail(b: string, s: nat, args: seq<Span>, files: seq<(Span, char)>): Parsed
    requires s <= |b| && Line(b)
  {
    match ParseRedirs(b, s, files)
    case Missing => Panic("missing file for redirection")
    case Found(more, s1) => ParseArgs(b, s1, args, more)
  }

  // (The bound variable keeps the parser folded until it is named.)

  ghost predicate TailGives(b: string, s: nat, args: seq<Span>, files: seq<(Span, char)>, want: Meaning, e: nat) {
    && Line(b) && s <= |b|
    && forall k: nat {:trigger Tail(b, k, args, files)} :: k == s ==> Gives(b, Tail(b, k, args, files), want, e)
  }

  lemma TailEnds(b: string, s: nat, args: seq<Span>, files: seq<(Span, char)>)
    requires Line(b) && s <= |b| && Sep(b, s)
    ensures TailGives(b, s, args, files, Means(Wrap(Exec(Cuts(b, args)), CutFiles(b, files))), s)
  {
    assert Skip(b, s) == s;
    WrapText(b, Exec(args), files);
    assert Tail(b, s, args, files) == Ok(Wrap(Exec(args), files), s);
  }

  lemma TailFile(b: string, s: nat, args: seq<Span>, files: seq<(Span, char)>, p: Piece, n: nat, want: Meaning, e: nat)
    requires PieceAt(b, s, p, n) && p.File?
    requires TailGives(b, n, args, files + [(SpanOf(s, p), Kind(p.op))], want, e)
    ensures TailGives(b, s, args, files, want, e)
  {
    RedirStep(b, s, files, p, n);
    assert Tail(b, s, args, files) == Tail(b, n, args, files + [(SpanOf(s, p), Kind(p.op))]);
  }

  /** At s the token is the word w. */
  ghost predicate WordAt(b: string, s: nat, w: Span, n: nat) {
    && Line(b) && s <= |b| && n <= |b|
    && forall z: int {:trigger Key(z)} :: z == 0 ==> WordChar(At(b, s)) && GetToken(b, s) == Token('a', w.q, w.eq, n)
  }

  lemma WordToken(b: string, s: nat, p: Piece, n: nat)
    requires PieceAt(b, s, p, n) && p.Word?
    ensures WordAt(b, s, SpanOf(s, p), n)
  {
    ReadsWord(b, s, p.w, p.gap, n);
  }

  lemma TailOfWord(b: string, s: nat, args: seq<Span>, files: seq<(Span, char)>, w: Span, n: nat, want: Meaning, e: nat)
    requires WordAt(b, s, w, n)
    requires if |args| + 1 < MAXARGS then TailGives(b, n, args + [w], files, want, e) else want.TooMany?
    ensures TailGives(b, s, args, files, want, e)
  {
    assert Key(0) == 0 && WordChar(At(b, s));
    assert Skip(b, s) == s && ParseRedirs(b, s, files) == Found(files, s);
    assert |args| + 1 < MAXARGS ==> Gives(b, Tail(b, n, args + [w], files), want, e);
    assert Tail(b, s, args, files) == ParseArgs(b, s, args, files);
  }

  lemma TailWord(b: string, s: nat, args: seq<Span>, files: seq<(Span, char)>, p: Piece, n: nat, want: Meaning, e: nat)
    requires PieceAt(b, s, p, n) && p.Word?
    requires if |args| + 1 < MAXARGS then TailGives(b, n, args + [SpanOf(s, p)], files, want, e) else want.TooMany?
    ensures TailGives(b, s, args, files, want, e)
  {
    WordToken(b, s, p, n);
    TailOfWord(b, s, args, files, SpanOf(s, p), n, want, e);
  }

  /** What is left of a simple command. */
  function RestMeans(words: seq<string>, files: seq<(string, char)>, ps: Pieces): Meaning {
    if |words| + |WordsIn(ps)| < MAXARGS then Means(Wrap(Exec(words + WordsIn(ps)), files + FilesIn(ps))) else TooMany
  }

  /** The first piece and what comes after it. */
  lemma FirstPiece(b: string, s: nat, ps: Pieces, e: nat) returns (n: nat)
    requires Line(b) && LegalPieces(ps) && ps.Cons? && Reads(b, s, ShowPieces(ps)) && Sep(b, e)
    requires e == s + |ShowPieces(ps)|
    ensures PieceAt(b, s, ps.head, n) && LegalPieces(ps.tail) && Reads(b, n, ShowPieces(ps.tail))
    ensures e == n + |ShowPieces(ps.tail)|
  {
    n := s + |ShowPiece(ps.head)|;
    ReadsBoth(b, s, ShowPiece(ps.head), ShowPieces(ps.tail));
    PiecesStart(b, n, ps.tail, e);
  }

  lemma RestOfNone(words: seq<string>, files: seq<(string, char)>)
    requires |words| < MAXARGS
    ensures RestMeans(words, files, Nil) == Means(Wrap(Exec(words), files))
  {
    assert words + [] == words && files + [] == files;
  }

  lemma RestOfWord(b: string, args: seq<Span>, w: Span, files: seq<(string, char)>, ps: Pieces)
    requires ps.Cons? && ps.head.Word? && Cut(b, w) == ps.head.w
    ensures RestMeans(Cuts(b, args + [w]), files, ps.tail) == RestMeans(Cuts(b, args), files, ps)
    ensures |args| + 1 >= MAXARGS ==> RestMeans(Cuts(b, args), files, ps).TooMany?
  {
    assert WordsIn(ps) == [ps.head.w] + WordsIn(ps.tail) && FilesIn(ps) == FilesIn(ps.tail);
    assert Cuts(b, args + [w]) == Cuts(b, args) + [ps.head.w];
    assert Cuts(b, args + [w]) + WordsIn(ps.tail) == Cuts(b, args) + WordsIn(ps);
  }

  lemma RestOfFile(b: string, words: seq<string>, files: seq<(Span, char)>, f: (Span, char), ps: Pieces)
    requires ps.Cons? && ps.head.File? && Cut(b, f.0) == ps.head.f && f.1 == Kind(ps.head.op)
    ensures CutFiles(b, files + [f]) + FilesIn(ps.tail) == CutFiles(b, files) + FilesIn(ps)
    ensures RestMeans(words, CutFiles(b, files + [f]), ps.tail) == RestMeans(words, CutFiles(b, files), ps)
  {
    assert WordsIn(ps) == WordsIn(ps.tail) && FilesIn(ps) == [(ps.head.f, f.1)] + FilesIn(ps.tail);
    assert CutFiles(b, files + [f]) == CutFiles(b, files) + [(ps.head.f, f.1)];
  }

  lemma {:induction false} TailPieces(b: string, s: nat, args: seq<Span>, files: seq<(Span, char)>, ps: Pieces, e: nat)
    requires Line(b) && LegalPieces(ps) && |args| < MAXARGS
    requires Reads(b, s, ShowPieces(ps)) && e == s + |ShowPieces(ps)| && Sep(b, e)
    ensures TailGives(b, s, args, files, RestMeans(Cuts(b, args), CutFiles(b, files), ps), e)
    decreases ps
  {
    var want := RestMeans(Cuts(b, args), CutFiles(b, files), ps);
    if ps.Nil? {
      RestOfNone(Cuts(b, args), CutFiles(b, files));
      TailEnds(b, s, args, files);
    } else {
      var n := FirstPiece(b, s, ps, e);
      PieceCut(b, s, ps.head, n);
      var w := SpanOf(s, ps.head);
      if ps.head.File? {
        var f := (w, Kind(ps.head.op));
        RestOfFile(b, Cuts(b, args), files, f, ps);
        TailPieces(b, n, args, files + [f], ps.tail, e);
        TailFile(b, s, args, files, ps.head, n, want, e);
      } else {
        RestOfWord(b, args, w, CutFiles(b, files), ps);
        if |args| + 1 < MAXARGS { TailPieces(b, n, args + [w], files, ps.tail, e); }
        TailWord(b, s, args, files, ps.head, n, want, e);
      }
    }
  }

  ghost predicate RedirsGive(b: string, s: nat, files: seq<(Span, char)>, all: seq<(string, char)>, e: nat) {
    && Line(b) && s <= |b|
    && forall k: nat {:trigger ParseRedirs(b, k, files)} :: k == s ==>
      var r := ParseRedirs(b, k, files); r.Found? && r.pos == e && CutFiles(b, r.files) == all
  }

  lemma MoreRedirs(b: string, s: nat, files: seq<(Span, char)>, p: Piece, n: nat, all: seq<(string, char)>, e: nat)
    requires PieceAt(b, s, p, n) && p.File? && RedirsGive(b, n, files + [(SpanOf(s, p), Kind(p.op))], all, e)
    ensures RedirsGive(b, s, files, all, e)
  {
    RedirStep(b, s, files, p, n);
  }

  lemma NoRedirs(b: string, s: nat, files: seq<(Span, char)>)
    requires Line(b) && Sep(b, s)
    ensures RedirsGive(b, s, files, CutFiles(b, files), s)
  {
    assert Skip(b, s) == s;
  }

  /** The redirections after a group. */
  lemma {:induction false} RedirsPieces(b: string, s: nat, files: seq<(Span, char)>, ps: Pieces, e: nat)
    requires Line(b) && LegalPieces(ps) && WordsIn(ps) == []
    requires Reads(b, s, ShowPieces(ps)) && e == s + |ShowPieces(ps)| && Sep(b, e)
    ensures RedirsGive(b, s, files, CutFiles(b, files) + FilesIn(ps), e)
    decreases ps
  {
    if ps.Nil? {
      assert CutFiles(b, files) + [] == CutFiles(b, files);
      NoRedirs(b, s, files);
    } else {
      Mixed(ps);
      var n := FirstPiece(b, s, ps, e);
      PieceCut(b, s, ps.head, n);
      var f := (SpanOf(s, ps.head), Kind(ps.head.op));
      RedirsPieces(b, n, files + [f], ps.tail, e);
      RestOfFile(b, [], files, f, ps);
      MoreRedirs(b, s, files, ps.head, n, CutFiles(b, files) + FilesIn(ps), e);
    }
  }

  ghost predicate ExecGives(b: string, s: nat, want: Meaning, e: nat) {
    Line(b) && s <= |b| && forall k: nat {:trigger ParseExec(b, k)} :: k == s ==> Gives(b, ParseExec(b, k), want, e)
  }

  ghost predicate PipeGives(b: string, s: nat, want: Meaning, e: nat) {
    Line(b) && s <= |b| && forall k: nat {:trigger ParsePipe(b, k)} :: k == s ==> Gives(b, ParsePipe(b, k), want, e)
  }

  ghost predicate LineGives(b: string, s: nat, want: Meaning, e: nat) {
    Line(b) && s <= |b| && forall k: nat {:trigger ParseLine(b, k)} :: k == s ==> Gives(b, ParseLine(b, k), want, e)
  }

  // Leading blanks make no difference.

  lemma ExecSkips(b: string, s: nat)
    requires Line(b) && s <= |b|
    ensures ParseExec(b, s) == ParseExec(b, Skip(b, s))
  {
    assert Skip(b, Skip(b, s)) == Skip(b, s);
  }

  lemma PipeSkips(b: string, s: nat)
    requires Line(b) && s <= |b|
    ensures ParsePipe(b, s) == ParsePipe(b, Skip(b, s))
  {
    ExecSkips(b, s);
  }

  lemma LineSkips(b: string, s: nat)
    requires Line(b) && s <= |b|
    ensures ParseLine(b, s) == ParseLine(b, Skip(b, s))
  {
    PipeSkips(b, s);
  }

  lemma ExecTail(b: string, s: nat, want: Meaning, e: nat)
    requires Line(b) && s <= |b| && TailGives(b, Skip(b, s), [], [], want, e) && At(b, Skip(b, s)) != '('
    ensures ExecGives(b, s, want, e)
  {
    assert ParseExec(b, s) == Tail(b, Skip(b, s), [], []);
  }

  lemma SimpleMeans(b: string, lead: string, ps: Pieces)
    requires LegalPieces(ps)
    ensures RestMeans(Cuts(b, []), CutFiles(b, []), ps) == PartMeans(Simple(lead, ps))
  {
    assert Cuts(b, []) == [] && CutFiles(b, []) == [];
    WrapRedirected(Exec(WordsIn(ps)), [], ps);
    assert [] + FilesIn(ps) == FilesIn(ps) && [] + WordsIn(ps) == WordsIn(ps);
  }

  lemma PipeSkipped(b: string, s: nat, want: Meaning, e: nat)
    requires PipeGives(b, s, want, e)
    ensures PipeGives(b, Skip(b, s), want, e)
  {
    PipeSkips(b, s);
  }

  lemma LineSkipped(b: string, s: nat, want: Meaning, e: nat)
    requires LineGives(b, s, want, e)
    ensures LineGives(b, Skip(b, s), want, e)
  {
    LineSkips(b, s);
  }

  lemma SimpleTail(b: string, s: nat, lead: string, ps: Pieces, e: nat)
    requires Line(b) && LegalPieces(ps) && Reads(b, s, ShowPieces(ps)) && e == s + |ShowPieces(ps)| && Sep(b, e)
    ensures TailGives(b, s, [], [], PartMeans(Simple(lead, ps)), e)
  {
    TailPieces(b, s, [], [], ps, e);
    SimpleMeans(b, lead, ps);
  }

  lemma SimpleParses(b: string, s: nat, lead: string, ps: Pieces, e: nat)
    requires Line(b) && Blank(lead) && LegalPieces(ps)
    requires Reads(b, s, lead + ShowPieces(ps)) && e == s + |lead| + |ShowPieces(ps)| && Sep(b, e)
    ensures ExecGives(b, s, PartMeans(Simple(lead, ps)), e)
  {
    var m := s + |lead|;
    ReadsBoth(b, s, lead, ShowPieces(ps));
    PiecesStart(b, m, ps, e);
    SkipBlank(b, s, lead);
    SimpleTail(b, m, lead, ps, e);
    ExecTail(b, s, PartMeans(Simple(lead, ps)), e);
  }

  lemma OneSymbol(b: string, s: nat)
    requires Line(b) && s < |b| && Symbol(b[s]) && b[s] != '>'
    ensures Skip(b, s) == s && GetToken(b, s).next == Skip(b, s + 1)
  {
  }

  function WrapMeans(inner: Meaning, files: seq<(string, char)>): Meaning {
    if inner.TooMany? then TooMany else Means(Wrap(inner.cmd, files))
  }

  lemma BlockIs(b: string, s: nat, inner: Meaning, e: nat, files: seq<(string, char)>, end: nat)
    requires Line(b) && At(b, s) == '(' && s < |b| && LineGives(b, GetToken(b, s).next, inner, e)
    requires e < |b| && b[e] == ')' && Skip(b, e) == e && RedirsGive(b, GetToken(b, e).next, [], files, end)
    ensures Gives(b, ParseBlock(b, s), WrapMeans(inner, files), end)
  {
    var c := ParseLine(b, GetToken(b, s).next);
    assert Gives(b, c, inner, e);
    if inner.Means? {
      var r := ParseRedirs(b, GetToken(b, e).next, []);
      WrapText(b, c.cmd, r.files);
      assert ParseBlock(b, s) == Ok(Wrap(c.cmd, r.files), r.pos);
    }
  }

  /** A group whose line gives inner, and the redirections after it. */
  lemma InBlock(b: string, s: nat, inner: Meaning, e: nat, files: seq<(string, char)>, end: nat)
    requires Line(b) && At(b, s) == '(' && LineGives(b, s + 1, inner, e) && At(b, e) == ')'
    requires RedirsGive(b, Skip(b, e + 1), [], files, end)
    ensures Gives(b, ParseBlock(b, s), WrapMeans(inner, files), end)
  {
    OneSymbol(b, s);
    OneSymbol(b, e);
    LineSkipped(b, s + 1, inner, e);
    BlockIs(b, s, inner, e, files, end);
  }

  lemma BlockText(b: string, s: nat, w: string, e: nat, gap: string, n: nat, files: string)
    requires Reads(b, s, "(" + (w + (")" + (gap + files)))) && e == s + 1 + |w| && n == e + 1 + |gap|
    ensures At(b, s) == '(' && Reads(b, s + 1, w) && At(b, e) == ')' && Reads(b, e + 1, gap) && Reads(b, n, files)
  {
    ReadsSymbol(b, s, '(', w + (")" + (gap + files)));
    ReadsBoth(b, s + 1, w, ")" + (gap + files));
    ReadsSymbol(b, e, ')', gap + files);
    ReadsBoth(b, e + 1, gap, files);
  }

  lemma GroupMeans(b: string, inner: Meaning, ps: Pieces)
    requires LegalPieces(ps)
    ensures WrapMeans(inner, CutFiles(b, []) + FilesIn(ps)) == GroupMeaning(inner, ps)
  {
    assert CutFiles(b, []) == [];
    if inner.Means? {
      WrapRedirected(inner.cmd, [], ps);
      assert [] + FilesIn(ps) == FilesIn(ps);
    }
  }

  lemma AfterBlock(b: string, s: nat, gap: string, n: nat, ps: Pieces, e: nat)
    requires Line(b) && Blank(gap) && LegalPieces(ps) && WordsIn(ps) == [] && Reads(b, s, gap) && n == s + |gap|
    requires Reads(b, n, ShowPieces(ps)) && e == n + |ShowPieces(ps)| && Sep(b, e)
    ensures Skip(b, s) == n && RedirsGive(b, n, [], CutFiles(b, []) + FilesIn(ps), e)
  {
    PiecesStart(b, n, ps, e);
    SkipBlank(b, s, gap);
    RedirsPieces(b, n, [], ps, e);
  }

  lemma ExecBlock(b: string, s: nat, want: Meaning, e: nat)
    requires Line(b) && s <= |b| && At(b, Skip(b, s)) == '(' && Gives(b, ParseBlock(b, Skip(b, s)), want, e)
    ensures ExecGives(b, s, want, e)
  {
  }

  /** A group of which the line w inside gives inner. */
  lemma BlockParses(b: string, s: nat, w: string, inner: Meaning, e: nat, gap: string, n: nat, ps: Pieces, end: nat)
    requires Line(b) && Blank(gap) && LegalPieces(ps) && WordsIn(ps) == []
    requires Reads(b, s, "(" + (w + (")" + (gap + ShowPieces(ps))))) && e == s + 1 + |w| && n == e + 1 + |gap|
    requires end == n + |ShowPieces(ps)| && Sep(b, end) && LineGives(b, s + 1, inner, e)
    ensures At(b, s) == '(' && Gives(b, ParseBlock(b, s), GroupMeaning(inner, ps), end)
  {
    BlockText(b, s, w, e, gap, n, ShowPieces(ps));
    AfterBlock(b, e + 1, gap, n, ps, end);
    InBlock(b, s, inner, e, CutFiles(b, []) + FilesIn(ps), end);
    GroupMeans(b, inner, ps);
  }

  lemma PipeOne(b: string, s: nat, want: Meaning, e: nat)
    requires ExecGives(b, s, want, e) && e <= |b| && !White(At(b, e)) && At(b, e) != '|'
    ensures PipeGives(b, s, want, e)
  {
    assert Gives(b, ParseExec(b, s), want, e) && Skip(b, e) == e;
  }

  lemma PipeTwo(b: string, s: nat, l: Meaning, e: nat, r: Meaning, end: nat)
    requires ExecGives(b, s, l, e) && At(b, e) == '|' && PipeGives(b, e + 1, r, end)
    ensures PipeGives(b, s, BothMean(l, r, true), end)
  {
    OneSymbol(b, e);
    PipeSkipped(b, e + 1, r, end);
    assert Gives(b, ParseExec(b, s), l, e) && Gives(b, ParsePipe(b, GetToken(b, e).next), r, end);
  }

  lemma FirstBack(b: string, s: nat, backs: seq<string>)
    requires Line(b) && backs != [] && LegalBacks(backs) && Reads(b, s, ShowBacks(backs))
    requires !White(At(b, s + |ShowBacks(backs)|))
    ensures var n := s + 1 + |backs[0]|;
      && s < |b| && b[s] == '&' && Skip(b, s) == s && GetToken(b, s).next == n && Reads(b, n, ShowBacks(backs[1..]))
      && n + |ShowBacks(backs[1..])| == s + |ShowBacks(backs)|
  {
    var gap, rest := backs[0], ShowBacks(backs[1..]);
    ReadsSymbol(b, s, '&', gap + rest);
    ReadsBoth(b, s + 1, gap, rest);
    if backs[1..] != [] { ReadsChar(b, s + 1 + |gap|, rest, 0); }
    OneSymbol(b, s);
    SkipBlank(b, s + 1, gap);
  }

  /** The '&' after a chain. */
  lemma {:induction false} BacksParse(b: string, s: nat, c: Cmd<Span>, backs: seq<string>)
    requires Line(b) && LegalBacks(backs) && Reads(b, s, ShowBacks(backs))
    requires var e := s + |ShowBacks(backs)|; !White(At(b, e)) && At(b, e) != '&'
    ensures Gives(b, ParseBacks(b, s, c), InBack(Means(Text(b, c)), |backs|), s + |ShowBacks(backs)|)
    decreases |backs|
  {
    if backs == [] {
      assert Skip(b, s) == s;
    } else {
      FirstBack(b, s, backs);
      BacksParse(b, s + 1 + |backs[0]|, Back(c), backs[1..]);
    }
  }

  /** parseline up to the ';'. */
  function AfterBacks(b: string, s: nat): Parsed
    requires s <= |b| && Line(b)
  {
    var c := ParsePipe(b, s);
    if c.Panic? then c else ParseBacks(b, c.pos, c.cmd)
  }

  lemma JobParses(b: string, s: nat, l: Meaning, e: nat, backs: seq<string>, n: nat)
    requires PipeGives(b, s, l, e) && LegalBacks(backs) && Reads(b, e, ShowBacks(backs)) && n == e + |ShowBacks(backs)|
    requires !White(At(b, n)) && At(b, n) != '&'
    ensures Gives(b, AfterBacks(b, s), InBack(l, |backs|), n)
  {
    var c := ParsePipe(b, s);
    assert Gives(b, c, l, e);
    if l.Means? { BacksParse(b, e, c.cmd, backs); }
  }

  lemma LineOne(b: string, s: nat, l: Meaning, e: nat, backs: seq<string>, n: nat)
    requires PipeGives(b, s, l, e) && LegalBacks(backs) && Reads(b, e, ShowBacks(backs)) && n == e + |ShowBacks(backs)|
    requires !White(At(b, n)) && At(b, n) != '&' && At(b, n) != ';'
    ensures LineGives(b, s, InBack(l, |backs|), n)
  {
    JobParses(b, s, l, e, backs, n);
    assert Gives(b, ParseLine(b, s), InBack(l, |backs|), n);
  }

  lemma LineList(b: string, s: nat, l: Meaning, n: nat, r: Meaning, end: nat)
    requires Line(b) && s <= |b| && Gives(b, AfterBacks(b, s), l, n) && n < |b| && b[n] == ';'
    requires LineGives(b, GetToken(b, n).next, r, end)
    ensures LineGives(b, s, BothMean(l, r, false), end)
  {
    var k, d := AfterBacks(b, s), ParseLine(b, GetToken(b, n).next);
    assert Gives(b, d, r, end);
    assert l.Means? ==> ParseLine(b, s) == if d.Panic? then d else Ok(List(k.cmd, d.cmd), d.pos);
  }

  lemma LineTwo(b: string, s: nat, l: Meaning, e: nat, backs: seq<string>, n: nat, r: Meaning, end: nat)
    requires PipeGives(b, s, l, e) && LegalBacks(backs) && Reads(b, e, ShowBacks(backs)) && n == e + |ShowBacks(backs)|
    requires At(b, n) == ';' && LineGives(b, n + 1, r, end)
    ensures LineGives(b, s, BothMean(InBack(l, |backs|), r, false), end)
  {
    JobParses(b, s, l, e, backs, n);
    OneSymbol(b, n);
    LineSkipped(b, n + 1, r, end);
    LineList(b, s, InBack(l, |backs|), n, r, end);
  }

  lemma {:induction false} PartParses(b: string, s: nat, u: Part, e: nat)
    requires Line(b) && LegalPart(u) && Reads(b, s, ShowPart(u)) && e == s + |ShowPart(u)| && Sep(b, e)
    ensures ExecGives(b, s, PartMeans(u), e)
    decreases u, 0
  {
    match u
    case Simple(lead, pieces) => SimpleParses(b, s, lead, pieces, e);
    case Block(lead, body, gap, files) =>
      var m := s + |lead|;
      var w := ShowRow(body);
      ReadsBoth(b, s, lead, "(" + (w + (")" + (gap + ShowPieces(files)))));
      GroupParses(b, m, body, w, gap, files, e);
      SkipBlank(b, s, lead);
      ExecBlock(b, s, PartMeans(u), e);
  }

  lemma {:induction false} GroupParses(b: string, s: nat, body: Row, w: string, gap: string, ps: Pieces, end: nat)
    requires Line(b) && LegalRow(body) && w == ShowRow(body) && Blank(gap) && LegalPieces(ps) && WordsIn(ps) == []
    requires Reads(b, s, "(" + (w + (")" + (gap + ShowPieces(ps))))) && Sep(b, end)
    requires end == s + |w| + 2 + |gap| + |ShowPieces(ps)|
    ensures At(b, s) == '(' && Gives(b, ParseBlock(b, s), GroupMeaning(RowMeans(body), ps), end)
    decreases body, 1
  {
    var e := s + 1 + |w|;
    BlockText(b, s, w, e, gap, e + 1 + |gap|, ShowPieces(ps));
    RowParses(b, s + 1, body, e);
    BlockParses(b, s, w, RowMeans(body), e, gap, e + 1 + |gap|, ps, end);
  }

  lemma {:induction false} PipedParses(b: string, s: nat, u: Part, e: nat, r: Meaning, end: nat)
    requires Line(b) && LegalPart(u) && Reads(b, s, ShowPart(u)) && e == s + |ShowPart(u)|
    requires At(b, e) == '|' && PipeGives(b, e + 1, r, end)
    ensures PipeGives(b, s, BothMean(PartMeans(u), r, true), end)
    decreases u, 1
  {
    PartParses(b, s, u, e);
    PipeTwo(b, s, PartMeans(u), e, r, end);
  }

  lemma {:induction false} ChainParses(b: string, s: nat, c: Chain, e: nat)
    requires Line(b) && LegalChain(c) && Reads(b, s, ShowChain(c)) && e == s + |ShowChain(c)|
    requires Sep(b, e) && At(b, e) != '|'
    ensures PipeGives(b, s, ChainMeans(c), e)
    decreases c, 0
  {
    match c
    case One(u) =>
      PartParses(b, s, u, e);
      PipeOne(b, s, PartMeans(u), e);
    case Piped(u, d) =>
      var m := s + |ShowPart(u)|;
      ReadsJoined(b, s, ShowPart(u), '|', ShowChain(d));
      ChainParses(b, m + 1, d, e);
      PipedParses(b, s, u, m, ChainMeans(d), e);
  }

  /** Where a line may end so that its last chain has nothing more to read: at the end, before a closing parenthesis,
      and after a '&' before anything but '&' and ';'. */
  predicate RowEnds(b: string, e: nat, r: Row) {
    && !White(At(b, e)) && At(b, e) != '&' && At(b, e) != ';'
    && (e == |b| || At(b, e) == ')' || LastBacks(r) != [])
  }

  function LastBacks(r: Row): seq<string> { if r.Last? then r.backs else LastBacks(r.row) }

  lemma BacksStart(b: string, s: nat, backs: seq<string>)
    requires Reads(b, s, ShowBacks(backs)) && backs != []
    ensures At(b, s) == '&'
  {
    ReadsChar(b, s, ShowBacks(backs), 0);
  }

  /** A chain and the '&' after it. */
  lemma {:induction false} JobStands(b: string, s: nat, c: Chain, e: nat, backs: seq<string>, n: nat)
    requires Line(b) && LegalChain(c) && Reads(b, s, ShowChain(c)) && e == s + |ShowChain(c)|
    requires Reads(b, e, ShowBacks(backs)) && n == e + |ShowBacks(backs)|
    requires backs == [] ==> n == |b| || At(b, n) == ')' || At(b, n) == ';'
    ensures PipeGives(b, s, ChainMeans(c), e)
    decreases c, 1
  {
    if backs != [] { BacksStart(b, e, backs); }
    ChainParses(b, s, c, e);
  }

  /** The parser gives every written line its meaning, wherever it stands. */
  lemma {:induction false} RowParses(b: string, s: nat, r: Row, e: nat)
    requires Line(b) && LegalRow(r) && Reads(b, s, ShowRow(r)) && e == s + |ShowRow(r)| && RowEnds(b, e, r)
    ensures LineGives(b, s, RowMeans(r), e)
    decreases r, 0
  {
    var m := s + |ShowChain(r.job)|;
    match r
    case Last(c, backs) =>
      ReadsBoth(b, s, ShowChain(c), ShowBacks(backs));
      JobStands(b, s, c, m, backs, e);
      LineOne(b, s, ChainMeans(c), m, backs, e);
    case Then(c, backs, d) =>
      var n := m + |ShowBacks(backs)|;
      ReadsBoth(b, s, ShowChain(c), ShowBacks(backs) + (";" + ShowRow(d)));
      ReadsJoined(b, m, ShowBacks(backs), ';', ShowRow(d));
      JobStands(b, s, c, m, backs, n);
      RowParses(b, n + 1, d, e);
      LineTwo(b, s, ChainMeans(c), m, backs, n, RowMeans(d), e);
  }

  // No written line holds a NUL.

  lemma PieceLine(p: Piece)
    requires LegalPiece(p)
    ensures Line(ShowPiece(p))
  {
    assert p.File? ==> Line(ShowOp(p.op) + p.sep) && Line(p.f + p.gap);
  }

  lemma {:induction false} PiecesLine(ps: Pieces)
    requires LegalPieces(ps)
    ensures Line(ShowPieces(ps))
  {
    if ps.Cons? {
      PieceLine(ps.head);
      PiecesLine(ps.tail);
    }
  }

  lemma {:induction false} BacksLine(backs: seq<string>)
    requires LegalBacks(backs)
    ensures Line(ShowBacks(backs))
  {
    if backs != [] { BacksLine(backs[1..]); }
  }

  lemma {:induction false} PartLine(u: Part)
    requires LegalPart(u)
    ensures Line(ShowPart(u))
    decreases u
  {
    match u
    case Simple(lead, pieces) => PiecesLine(pieces);
    case Block(lead, body, gap, files) => RowLine(body); PiecesLine(files);
  }

  lemma {:induction false} ChainLine(c: Chain)
    requires LegalChain(c)
    ensures Line(ShowChain(c))
    decreases c
  {
    PartLine(c.part);
    if c.Piped? { ChainLine(c.chain); }
  }

  lemma {:induction false} RowLine(r: Row)
    requires LegalRow(r)
    ensures Line(ShowRow(r))
    decreases r
  {
    ChainLine(r.job);
    BacksLine(r.backs);
    if r.Then? { RowLine(r.row); }
  }

  lemma ReadsAll(w: string, rest: string)
    ensures Reads(w + rest, 0, w)
  {
    assert Same(w + rest, 0, w);
  }

  /** Every line made of words, redirections, groups, '|', '&' and ';' with blanks anywhere parses to its meaning: the
      words of each simple command in order, its redirections in the order written, '|' and ';' nested to the right.
      It is refused exactly when a simple command has MAXARGS words or more. */
  lemma LineParses(r: Row)
    requires LegalRow(r)
    ensures Line(ShowRow(r)) && Gives(ShowRow(r), ParseCmd(ShowRow(r)), RowMeans(r), |ShowRow(r)|)
  {
    RowLine(r);
    var b := ShowRow(r);
    assert b + "" == b;
    ReadsAll(b, "");
    RowParses(b, 0, r, |b|);
    assert Gives(b, ParseLine(b, 0), RowMeans(r), |b|);
  }

  /** Anything left over is refused: what follows the last '&' of a line other than '&' and ';', and an unmatched
      closing parenthesis with all that follows it. */
  lemma LeftOver(r: Row, rest: string)
    requires LegalRow(r) && RowMeans(r).Means? && Line(rest) && rest != ""
    requires RowEnds(ShowRow(r) + rest, |ShowRow(r)|, r)
    ensures Line(ShowRow(r) + rest) && ParseCmd(ShowRow(r) + rest) == Panic("syntax")
  {
    RowLine(r);
    var b := ShowRow(r) + rest;
    ReadsAll(ShowRow(r), rest);
    RowParses(b, 0, r, |ShowRow(r)|);
    assert Gives(b, ParseLine(b, 0), RowMeans(r), |ShowRow(r)|);
  }

  // ---------------------------------------------------------------- round trip

  function Spaced(args: seq<string>): Pieces {
    if args == [] then Nil else Cons(Word(args[0], " "), Spaced(args[1..]))
  }

  function OpOf(mode: int): Op { if mode == 0 then From else if mode == 0x601 then To else Onto }

  function Grouped(body: Row, files: Pieces): Part { Block("", body, "", files) }

  /** The fully parenthesised writing of a command. */
  function Written(c: Cmd<string>): Row {
    match c
    case Exec(args) => Last(One(Simple("", Spaced(args))), [])
    case Redir(d, f, mode, _) => Last(One(Grouped(Written(d), Cons(File(OpOf(mode), "", f, ""), Nil))), [])
    case Pipe(l, r) => Last(Piped(Grouped(Written(l), Nil), One(Grouped(Written(r), Nil))), [])
    case List(l, r) => Then(One(Grouped(Written(l), Nil)), [], Last(One(Grouped(Written(r), Nil)), []))
    case Back(d) => Last(One(Grouped(Written(d), Nil)), [""])
  }

  predicate LegalArgs(args: seq<string>) { forall i :: 0 <= i < |args| ==> LegalWord(args[i]) }

  predicate LegalMode(mode: int, fd: int) {
    (mode == 0 && fd == 0) || (mode == 0x601 && fd == 1) || (mode == 0x201 && fd == 1)
  }

  /** Words without blanks and symbols, redirections of one of the three kinds, at most nine arguments. */
  predicate Legal(c: Cmd<string>) {
    match c
    case Exec(args) => |args| < MAXARGS && LegalArgs(args)
    case Redir(d, f, mode, fd) => Legal(d) && LegalWord(f) && LegalMode(mode, fd)
    case Pipe(l, r) => Legal(l) && Legal(r)
    case List(l, r) => Legal(l) && Legal(r)
    case Back(d) => Legal(d)
  }

  lemma {:induction false} SpacedMeans(args: seq<string>, c: Cmd<string>)
    requires LegalArgs(args)
    ensures LegalPieces(Spaced(args)) && WordsIn(Spaced(args)) == args && Redirected(c, Spaced(args)) == c
    decreases |args|
  {
    if args != [] {
      SpacedMeans(args[1..], c);
    }
  }

  lemma OneFile(c: Cmd<string>, p: Piece)
    requires LegalPiece(p) && p.File?
    ensures LegalPieces(Cons(p, Nil)) && WordsIn(Cons(p, Nil)) == []
    ensures Redirected(c, Cons(p, Nil)) == Opened(c, p.op, p.f)
  {
    assert Redirected(Opened(c, p.op, p.f), Nil) == Opened(c, p.op, p.f);
  }

  lemma LastMeans(c: Chain)
    ensures LegalRow(Last(c, [])) == LegalChain(c) && RowMeans(Last(c, [])) == ChainMeans(c)
    ensures ShowRow(Last(c, [])) == ShowChain(c)
  {
    assert ShowBacks([]) == "" && ShowChain(c) + "" == ShowChain(c);
  }

  lemma OpOpens(c: Cmd<string>, f: string, mode: int, fd: int)
    requires LegalMode(mode, fd)
    ensures Opened(c, OpOf(mode), f) == Redir(c, f, mode, fd)
  {
  }

  lemma FiledMeans(d: Cmd<string>, f: string, mode: int, fd: int, body: Row)
    requires LegalWord(f) && LegalMode(mode, fd) && LegalRow(body) && RowMeans(body) == Means(d)
    ensures var r := Last(One(Grouped(body, Cons(File(OpOf(mode), "", f, ""), Nil))), []);
      LegalRow(r) && RowMeans(r) == Means(Redir(d, f, mode, fd))
  {
    var u := Grouped(body, Cons(File(OpOf(mode), "", f, ""), Nil));
    OneFile(d, u.files.head);
    OpOpens(d, f, mode, fd);
    assert LegalPart(u) && PartMeans(u) == Means(Redirected(d, u.files));
    LastMeans(One(u));
  }

  lemma GroupedMeans(body: Row, c: Cmd<string>)
    requires LegalRow(body) && RowMeans(body) == Means(c)
    ensures var g := One(Grouped(body, Nil)); LegalChain(g) && ChainMeans(g) == Means(c)
  {
    var u := Grouped(body, Nil);
    assert LegalPart(u) && Redirected(c, Nil) == c && PartMeans(u) == Means(c);
  }

  lemma TwoMean(l: Cmd<string>, r: Cmd<string>, v: Row, w: Row)
    requires LegalRow(v) && RowMeans(v) == Means(l) && LegalRow(w) && RowMeans(w) == Means(r)
    ensures var p := Last(Piped(Grouped(v, Nil), One(Grouped(w, Nil))), []);
      LegalRow(p) && RowMeans(p) == Means(Pipe(l, r))
    ensures var p := Then(One(Grouped(v, Nil)), [], Last(One(Grouped(w, Nil)), []));
      LegalRow(p) && RowMeans(p) == Means(List(l, r))
  {
    var x, y := One(Grouped(v, Nil)), One(Grouped(w, Nil));
    GroupedMeans(v, l);
    GroupedMeans(w, r);
    var p := Piped(x.part, y);
    assert LegalChain(p) && PartMeans(x.part) == Means(l) && ChainMeans(p) == Means(Pipe(l, r));
    LastMeans(p);
    LastMeans(y);
    var q := Then(x, [], Last(y, []));
    assert LegalRow(q) && InBack(ChainMeans(x), 0) == Means(l) && RowMeans(q) == Means(List(l, r));
  }

  lemma {:induction false} WrittenMeans(t: Cmd<string>)
    requires Legal(t)
    ensures LegalRow(Written(t)) && RowMeans(Written(t)) == Means(t)
  {
    match t
    case Exec(args) =>
      SpacedMeans(args, t);
      var u := Simple("", Spaced(args));
      assert LegalPart(u) && PartMeans(u) == Means(t);
      LastMeans(One(u));
    case Redir(d, f, mode, fd) => WrittenMeans(d); FiledMeans(d, f, mode, fd, Written(d));
    case Pipe(l, r) => WrittenMeans(l); WrittenMeans(r); TwoMean(l, r, Written(l), Written(r));
    case List(l, r) => WrittenMeans(l); WrittenMeans(r); TwoMean(l, r, Written(l), Written(r));
    case Back(d) =>
      WrittenMeans(d);
      GroupedMeans(Written(d), d);
      assert InBack(Means(d), 1) == InBack(Means(Back(d)), 0);
  }

  /** Round trip: every legal command tree is recovered from its fully parenthesised text. */
  lemma RoundTrip(t: Cmd<string>)
    requires Legal(t)
    ensures var b := ShowRow(Written(t)); Line(b) && ParseCmd(b).Ok? && Text(b, ParseCmd(b).cmd) == t
  {
    WrittenMeans(t);
    LineParses(Written(t));
  }

  /** A simple command is accepted exactly when it has fewer than MAXARGS words, however they are mixed with
      redirections. */
  lemma TooManyArgs(lead: string, ps: Pieces)
    requires Blank(lead) && LegalPieces(ps)
    ensures var b := lead + ShowPieces(ps);
      && Line(b) && (ParseCmd(b).Ok? <==> |WordsIn(ps)| < MAXARGS)
      && (ParseCmd(b).Ok? ==> Text(b, ParseCmd(b).cmd) == Redirected(Exec(WordsIn(ps)), ps))
  {
    var u := Simple(lead, ps);
    assert LegalPart(u) && ShowPart(u) == lead + ShowPieces(ps);
    LastMeans(One(u));
    LineParses(Last(One(u), []));
  }

  function OneWord(lead: string, w: string, gap: string): Part { Simple(lead, Cons(Word(w, gap), Nil)) }

  lemma OneWordMeans(lead: string, w: string, gap: string)
    requires Blank(lead) && LegalWord(w) && Blank(gap)
    ensures LegalPart(OneWord(lead, w, gap)) && ShowPart(OneWord(lead, w, gap)) == lead + (w + gap)
    ensures PartMeans(OneWord(lead, w, gap)) == Means(Exec([w]))
  {
    var ps := Cons(Word(w, gap), Nil);
    assert WordsIn(ps) == [w] + WordsIn(Nil) && WordsIn(Nil) == [] && [w] + [] == [w];
    assert ShowPieces(ps) == (w + gap) + ShowPieces(Nil) && ShowPieces(Nil) == "" && (w + gap) + "" == w + gap;
    assert Redirected(Exec([w]), ps) == Redirected(Exec([w]), Nil) && LegalPieces(Nil) && LegalPieces(ps);
  }

  lemma OnePartMeans(u: Part)
    ensures LegalChain(One(u)) == LegalPart(u) && ChainMeans(One(u)) == PartMeans(u) && ShowChain(One(u)) == ShowPart(u)
  {
  }

  lemma TwoPartsMean(u: Part, d: Chain)
    requires LegalPart(u) && LegalChain(d)
    ensures LegalChain(Piped(u, d)) && ChainMeans(Piped(u, d)) == BothMean(PartMeans(u), ChainMeans(d), true)
    ensures ShowChain(Piped(u, d)) == ShowPart(u) + ("|" + ShowChain(d))
  {
  }

  /** The text parses to c. */
  predicate ParsesTo(b: string, c: Cmd<string>) {
    Line(b) && ParseCmd(b).Ok? && Text(b, ParseCmd(b).cmd) == c
  }

  lemma ParsesAs(r: Row, b: string, c: Cmd<string>)
    requires LegalRow(r) && ShowRow(r) == b && RowMeans(r) == Means(c)
    ensures ParsesTo(b, c)
  {
    LineParses(r);
  }

  /** A word in front of other pieces. */
  lemma WordFirst(w: string, ps: Pieces, c: Cmd<string>)
    requires LegalWord(w) && LegalPieces(ps)
    ensures var qs := Cons(Word(w, " "), ps);
      && LegalPieces(qs) && WordsIn(qs) == [w] + WordsIn(ps) && ShowPieces(qs) == (w + " ") + ShowPieces(ps)
      && Redirected(c, qs) == Redirected(c, ps)
  {
    assert LegalPiece(Word(w, " "));
  }

  lemma ToFile(f: string, c: Cmd<string>)
    requires LegalWord(f)
    ensures var ps := Cons(File(To, " ", f, ""), Nil);
      LegalPieces(ps) && WordsIn(ps) == [] && ShowPieces(ps) == "> " + f && Redirected(c, ps) == Redir(c, f, 0x601, 1)
  {
    var ps := Cons(File(To, " ", f, ""), Nil);
    assert ShowPieces(ps) == ShowPiece(ps.head) + ShowPieces(Nil) && ShowPieces(Nil) == "";
    assert ShowPiece(ps.head) == (">" + " ") + (f + "") == "> " + f;
    OneFile(c, ps.head);
  }

  /** echo hi > f */
  lemma RedirectedText(x: string, y: string, f: string)
    requires LegalWord(x) && LegalWord(y) && LegalWord(f)
    ensures ParsesTo(x + " " + y + " > " + f, Redir(Exec([x, y]), f, 0x601, 1))
  {
    var c, p2 := Exec([x, y]), Cons(File(To, " ", f, ""), Nil);
    ToFile(f, c);
    WordFirst(y, p2, c);
    WordFirst(x, Cons(Word(y, " "), p2), c);
    var ps := Cons(Word(x, " "), Cons(Word(y, " "), p2));
    assert WordsIn(ps) == [x] + ([y] + []) == [x, y];
    assert ShowPieces(ps) == (x + " ") + ((y + " ") + ("> " + f)) == x + " " + y + " > " + f;
    var u := Simple("", ps);
    assert LegalPart(u) && ShowPart(u) == "" + ShowPieces(ps) == ShowPieces(ps);
    assert PartMeans(u) == Means(Redirected(c, ps));
    LastMeans(One(u));
    ParsesAs(Last(One(u), []), x + " " + y + " > " + f, Redir(Exec([x, y]), f, 0x601, 1));
  }

  /** a | b | c */
  lemma PipedText(x: string, y: string, z: string)
    requires LegalWord(x) && LegalWord(y) && LegalWord(z)
    ensures ParsesTo(x + " | " + y + " | " + z, Pipe(Exec([x]), Pipe(Exec([y]), Exec([z]))))
  {
    OneWordMeans("", x, " ");
    OneWordMeans(" ", y, " ");
    OneWordMeans(" ", z, "");
    var d := Piped(OneWord(" ", y, " "), One(OneWord(" ", z, "")));
    var c := Piped(OneWord("", x, " "), d);
    OnePartMeans(d.chain.part);
    TwoPartsMean(d.part, d.chain);
    TwoPartsMean(c.part, d);
    assert ShowChain(d) == (" " + (y + " ")) + ("|" + (" " + (z + ""))) == " " + y + " | " + z;
    assert ShowChain(c) == ("" + (x + " ")) + ("|" + ShowChain(d)) == x + " | " + y + " | " + z;
    LastMeans(c);
    ParsesAs(Last(c, []), x + " | " + y + " | " + z, Pipe(Exec([x]), Pipe(Exec([y]), Exec([z]))));
  }

  /** a ; b */
  lemma ListedText(x: string, y: string)
    requires LegalWord(x) && LegalWord(y)
    ensures ParsesTo(x + " ; " + y, List(Exec([x]), Exec([y])))
  {
    OneWordMeans("", x, " ");
    OneWordMeans(" ", y, "");
    var c, d := One(OneWord("", x, " ")), Last(One(OneWord(" ", y, "")), []);
    LastMeans(One(OneWord(" ", y, "")));
    assert ShowRow(d) == " " + (y + "") == " " + y && ShowChain(c) == "" + (x + " ") == x + " ";
    assert LegalChain(c) && ChainMeans(c) == Means(Exec([x])) && ShowBacks([]) == "";
    assert ShowRow(Then(c, [], d)) == ShowChain(c) + ("" + (";" + ShowRow(d))) == x + " ; " + y;
    ParsesAs(Then(c, [], d), x + " ; " + y, List(Exec([x]), Exec([y])));
  }

  /** a & by itself, and a & b */
  lemma BackedText(x: string, y: string)
    requires LegalWord(x) && LegalWord(y)
    ensures ParsesTo(x + " & ", Back(Exec([x])))
    ensures Line(x + " & " + y) && ParseCmd(x + " & " + y) == Panic("syntax")
  {
    OneWordMeans("", x, " ");
    var c := One(OneWord("", x, " "));
    assert ShowBacks([" "]) == "&" + (" " + ShowBacks([" "][1..])) == "& " && ShowChain(c) == "" + (x + " ");
    assert ShowRow(Last(c, [" "])) == x + " & " && x + " & " + y == (x + " & ") + y;
    assert InBack(Means(Exec([x])), 1) == InBack(Means(Back(Exec([x]))), 0) && ChainMeans(c) == Means(Exec([x]));
    ParsesAs(Last(c, [" "]), x + " & ", Back(Exec([x])));
    LeftOver(Last(c, [" "]), y);
  }

  // ---------------------------------------------------------------- every string is a whole word

  predicate FilesOk(b: string, files: seq<(Span, char)>) {
    forall i :: 0 <= i < |files| ==> IsWord(b, files[i].0)
  }

  predicate ArgsOk(b: string, args: seq<Span>) { |args| < MAXARGS && forall i :: 0 <= i < |args| ==>
    IsWord(b, args[i]) }

  /** Every string of the command is a whole word of the line, and no argument vector overflows. */
  predicate Words(b: string, c: Cmd<Span>) {
    match c
    case Exec(args) => ArgsOk(b, args)
    case Redir(d, f, _, _) => Words(b, d) && IsWord(b, f)
    case Pipe(l, r) => Words(b, l) && Words(b, r)
    case List(l, r) => Words(b, l) && Words(b, r)
    case Back(d) => Words(b, d)
  }

  lemma {:induction false} WordEndInside(b: string, s: nat, i: nat)
    requires s <= i < |b| && Line(b) && i < WordEnd(b, s)
    ensures WordChar(b[i])
    decreases i - s
  {
    if s < i { WordEndInside(b, s + 1, i); }
  }

  lemma TokenIsWord(b: string, s: nat)
    requires s <= |b| && Line(b) && GetToken(b, s).kind == 'a'
    ensures var t := GetToken(b, s); IsWord(b, Span(t.q, t.eq))
  {
    var t := GetToken(b, s);
    forall i | t.q <= i < t.eq ensures WordChar(b[i]) { WordEndInside(b, t.q, i); }
  }

  lemma {:induction false} WrapWords(b: string, c: Cmd<Span>, files: seq<(Span, char)>)
    requires Words(b, c) && FilesOk(b, files)
    ensures Words(b, Wrap(c, files))
  {
    if files != [] { WrapWords(b, c, files[..|files| - 1]); }
  }

  lemma {:induction false} RedirsWords(b: string, s: nat, files: seq<(Span, char)>)
    requires s <= |b| && Line(b) && FilesOk(b, files)
    ensures var r := ParseRedirs(b, s, files); r.Found? ==> FilesOk(b, r.files)
    decreases |b| - s
  {
    var s1 := Skip(b, s);
    if StartsRedir(At(b, s1)) {
      var t := GetToken(b, s1);
      var f := GetToken(b, t.next);
      if f.kind == 'a' {
        TokenIsWord(b, t.next);
        RedirsWords(b, f.next, files + [(Span(f.q, f.eq), t.kind)]);
      }
    }
  }

  lemma {:induction false} ArgsWords(b: string, s: nat, args: seq<Span>, files: seq<(Span, char)>)
    requires s <= |b| && Line(b) && ArgsOk(b, args) && FilesOk(b, files)
    ensures var r := ParseArgs(b, s, args, files); r.Ok? ==> Words(b, r.cmd)
    decreases |b| - s
  {
    WrapWords(b, Exec(args), files);
    var s1 := Skip(b, s);
    var t := GetToken(b, s1);
    if !EndsArgs(At(b, s1)) && t.kind == 'a' && |args| + 1 < MAXARGS {
      TokenIsWord(b, s1);
      RedirsWords(b, t.next, files);
      var r := ParseRedirs(b, t.next, files);
      if r.Found? { ArgsWords(b, r.pos, args + [Span(t.q, t.eq)], r.files); }
    }
  }

  lemma {:induction false} ExecWords(b: string, s: nat)
    requires s <= |b| && Line(b)
    ensures ParseExec(b, s).Ok? ==> Words(b, ParseExec(b, s).cmd)
    decreases |b| - s, 1
  {
    var s1 := Skip(b, s);
    if At(b, s1) == '(' {
      BlockWords(b, s1);
    } else {
      RedirsWords(b, s1, []);
      var r := ParseRedirs(b, s1, []);
      if r.Found? { ArgsWords(b, r.pos, [], r.files); }
    }
  }

  lemma {:induction false} BlockWords(b: string, s: nat)
    requires s < |b| && Line(b) && b[s] == '('
    ensures ParseBlock(b, s).Ok? ==> Words(b, ParseBlock(b, s).cmd)
    decreases |b| - s, 0
  {
    var t := GetToken(b, s);
    LineWords(b, t.next);
    var c := ParseLine(b, t.next);
    if c.Ok? {
      var s1 := Skip(b, c.pos);
      if At(b, s1) == ')' {
        RedirsWords(b, GetToken(b, s1).next, []);
        var r := ParseRedirs(b, GetToken(b, s1).next, []);
        if r.Found? { WrapWords(b, c.cmd, r.files); }
      }
    }
  }

  lemma {:induction false} PipeWords(b: string, s: nat)
    requires s <= |b| && Line(b)
    ensures ParsePipe(b, s).Ok? ==> Words(b, ParsePipe(b, s).cmd)
    decreases |b| - s, 2
  {
    ExecWords(b, s);
    var c := ParseExec(b, s);
    if c.Ok? && At(b, Skip(b, c.pos)) == '|' { PipeWords(b, GetToken(b, Skip(b, c.pos)).next); }
  }

  lemma {:induction false} BacksWords(b: string, s: nat, cmd: Cmd<Span>)
    requires s <= |b| && Line(b) && Words(b, cmd)
    ensures Words(b, ParseBacks(b, s, cmd).cmd)
    decreases |b| - s
  {
    var s1 := Skip(b, s);
    if At(b, s1) == '&' { BacksWords(b, GetToken(b, s1).next, Back(cmd)); }
  }

  lemma {:induction false} LineWords(b: string, s: nat)
    requires s <= |b| && Line(b)
    ensures ParseLine(b, s).Ok? ==> Words(b, ParseLine(b, s).cmd)
    decreases |b| - s, 3
  {
    PipeWords(b, s);
    var c := ParsePipe(b, s);
    if c.Ok? {
      BacksWords(b, c.pos, c.cmd);
      var k := ParseBacks(b, c.pos, c.cmd);
      if At(b, k.pos) == ';' { LineWords(b, GetToken(b, k.pos).next); }
    }
  }

  // ---------------------------------------------------------------- nulterminate

  /** The positions at which nulterminate writes a NUL. */
  function Ends(c: Cmd<Span>): set<nat> {
    match c
    case Exec(args) => set w | w in args :: w.eq
    case Redir(d, f, _, _) => Ends(d) + {f.eq}
    case Pipe(l, r) => Ends(l) + Ends(r)
    case List(l, r) => Ends(l) + Ends(r)
    case Back(d) => Ends(d)
  }

  predicate HasString(c: Cmd<Span>, w: Span) {
    match c
    case Exec(args) => w in args
    case Redir(d, f, _, _) => HasString(d, w) || w == f
    case Pipe(l, r) => HasString(l, w) || HasString(r, w)
    case List(l, r) => HasString(l, w) || HasString(r, w)
    case Back(d) => HasString(d, w)
  }

  function Terminated(buf: string, ends: set<nat>): (r: string)
    ensures |r| == |buf| && forall i: nat :: i < |r| ==> r[i] == if i in ends then '\0' else buf[i]
  {
    seq(|buf|, i requires 0 <= i < |buf| => if i in ends then '\0' else buf[i])
  }

  /** The C string at q: up to the first NUL. */
  function CString(buf: string, q: nat): string
    requires q <= |buf|
    decreases |buf| - q
  {
    if q == |buf| || buf[q] == '\0' then "" else [buf[q]] + CString(buf, q + 1)
  }

  lemma {:induction false} CStringIs(buf: string, q: nat, e: nat)
    requires q <= e < |buf| && buf[e] == '\0' && forall i :: q <= i < e ==> buf[i] != '\0'
    ensures CString(buf, q) == buf[q..e]
    decreases e - q
  {
    if q < e {
      CStringIs(buf, q + 1, e);
      assert buf[q..e] == [buf[q]] + buf[q + 1..e];
    }
  }

  lemma {:induction false} EndsAreEnds(b: string, c: Cmd<Span>, e: nat)
    requires Words(b, c) && e in Ends(c)
    ensures e <= |b| && !WordChar(At(b, e))
  {
    match c
    case Exec(args) => var w :| w in args && w.eq == e; assert IsWord(b, w);
    case Redir(d, f, _, _) => if e in Ends(d) { EndsAreEnds(b, d, e); }
    case Pipe(l, r) => if e in Ends(l) { EndsAreEnds(b, l, e); } else { EndsAreEnds(b, r, e); }
    case List(l, r) => if e in Ends(l) { EndsAreEnds(b, l, e); } else { EndsAreEnds(b, r, e); }
    case Back(d) => EndsAreEnds(b, d, e);
  }

  lemma {:induction false} StringsAreWords(b: string, c: Cmd<Span>, w: Span)
    requires Words(b, c) && HasString(c, w)
    ensures IsWord(b, w) && w.eq in Ends(c)
  {
    match c
    case Exec(args) =>
    case Redir(d, f, _, _) => if HasString(d, w) { StringsAreWords(b, d, w); }
    case Pipe(l, r) => if HasString(l, w) { StringsAreWords(b, l, w); } else { StringsAreWords(b, r, w); }
    case List(l, r) => if HasString(l, w) { StringsAreWords(b, l, w); } else { StringsAreWords(b, r, w); }
    case Back(d) => StringsAreWords(b, d, w);
  }

  /** After nulterminate every argument and file name of a parsed line reads back as its token: the NULs fall
      between the words, never into one. */
  lemma StringsReadBack(b: string, w: Span)
    requires Line(b) && ParseCmd(b).Ok? && HasString(ParseCmd(b).cmd, w)
    ensures w.q < w.eq <= |b| && CString(Terminated(b + "\0", Ends(ParseCmd(b).cmd)), w.q) == b[w.q..w.eq]
    ensures LegalWord(b[w.q..w.eq])
  {
    var c := ParseCmd(b).cmd;
    LineWords(b, 0);
    StringsAreWords(b, c, w);
    var buf := Terminated(b + "\0", Ends(c));
    forall i | w.q <= i < w.eq ensures buf[i] == b[i] != '\0' {
      if i in Ends(c) { EndsAreEnds(b, c, i); }
    }
    CStringIs(buf, w.q, w.eq);
    assert buf[w.q..w.eq] == b[w.q..w.eq];
  }

  // ---------------------------------------------------------------- the code

  datatype Outcome = Built(cmd: Cmd<Span>) | Failed(why: string)

  /** The outcome and the cursor are what the grammar says. */
  predicate Agrees(o: Outcome, pos: nat, r: Parsed) {
    match r
    case Ok(c, end) => o == Built(c) && pos == end
    case Panic(why) => o == Failed(why)
  }

  /** A parse in progress: the line and the cursor *ps. */
  class Parser {
    const line: string
    var pos: nat

    predicate Valid()
      reads this
    {
      Line(line) && pos <= |line|
    }

    constructor (line: string)
      requires Line(line)
      ensures Valid() && this.line == line && pos == 0
    {
      this.line := line;
      pos := 0;
    }

    method SkipWhite()
      requires Valid()
      modifies this
      ensures Valid() && pos == Skip(line, old(pos))
    {
      while pos < |line| && White(line[pos])
        invariant Valid() && Skip(line, pos) == Skip(line, old(pos))
      {
        pos := pos + 1;
      }
    }

    /** gettoken. */
    method NextToken() returns (kind: char, q: nat, eq: nat)
      requires Valid()
      modifies this
      ensures Valid() && Token(kind, q, eq, pos) == GetToken(line, old(pos))
    {
      SkipWhite();
      q := pos;
      kind := At(line, pos);
      if kind == '\0' {
      } else if kind == '|' || kind == '(' || kind == ')' || kind == ';' || kind == '&' || kind == '<' {
        pos := pos + 1;
      } else if kind == '>' {
        pos := pos + 1;
        if At(line, pos) == '>' {
          kind := '+';
          pos := pos + 1;
        }
      } else {
        kind := 'a';
        while pos < |line| && !White(line[pos]) && !Symbol(line[pos])
          invariant Valid() && pos >= q && WordEnd(line, pos) == WordEnd(line, q)
        {
          pos := pos + 1;
        }
      }
      eq := pos;
      SkipWhite();
    }

    /** peek. */
    method Peek(toks: string) returns (hit: bool)
      requires Valid()
      modifies this
      ensures Valid() && pos == Skip(line, old(pos)) && (hit <==> pos < |line| && line[pos] in toks)
    {
      SkipWhite();
      hit := pos < |line| && line[pos] in toks;
    }

    /** parseredirs; the commands it builds are wrapped around the innermost one at the end. */
    method Redirections(files: seq<(Span, char)>) returns (r: seq<(Span, char)>, missing: bool)
      requires Valid()
      modifies this
      ensures Valid() && old(pos) <= pos
      ensures match ParseRedirs(line, old(pos), files)
        case Missing => missing
        case Found(all, end) => !missing && r == all && pos == end
    {
      r := files;
      var hit := Peek("<>");
      while hit
        invariant Valid() && old(pos) <= pos == Skip(line, pos)
        invariant hit <==> StartsRedir(At(line, pos))
        invariant ParseRedirs(line, pos, r) == ParseRedirs(line, old(pos), files)
        decreases |line| - pos
      {
        var tok, _, _ := NextToken();
        var kind, q, eq := NextToken();
        if kind != 'a' { return r, true; }
        r := r + [(Span(q, eq), tok)];
        hit := Peek("<>");
      }
      missing := false;
    }

    /** The loop of parseexec. */
    method ReadArgs(first: seq<(Span, char)>) returns (o: Outcome)
      requires Valid()
      modifies this
      ensures Valid() && old(pos) <= pos && Agrees(o, pos, ParseArgs(line, old(pos), [], first))
    {
      var args: seq<Span>, files, more := [], first, true;
      ghost var spec := ParseArgs(line, pos, args, files);
      var stop := Peek("|)&;");
      while !stop
        invariant Valid() && old(pos) <= pos == Skip(line, pos)
        invariant stop <==> EndsArgs(At(line, pos))
        invariant ParseArgs(line, pos, args, files) == spec
        decreases |line| - pos
      {
        args, files, more, o := ReadArg(args, files);
        if !more { return; }
        stop := Peek("|)&;");
      }
      o := Built(Wrap(Exec(args), files));
    }

    /** One turn of that loop: a word and the redirections after it, or the end of the line, or a panic. */
    method ReadArg(args: seq<Span>, files: seq<(Span, char)>)
      returns (args': seq<Span>, files': seq<(Span, char)>, more: bool, o: Outcome)
      requires Valid() && pos == Skip(line, pos) && !EndsArgs(At(line, pos))
      modifies this
      ensures Valid() && old(pos) <= pos
      ensures more ==> old(pos) < pos && ParseArgs(line, pos, args', files') == ParseArgs(line, old(pos), args, files)
      ensures !more ==> Agrees(o, pos, ParseArgs(line, old(pos), args, files))
    {
      args', files', more := args, files, false;
      var kind, q, eq := NextToken();
      if kind == '\0' { return args', files', false, Built(Wrap(Exec(args), files)); }
      if kind != 'a' { return args', files', false, Failed("syntax"); }
      args' := args + [Span(q, eq)];
      if |args'| >= MAXARGS { return args', files', false, Failed("too many args"); }
      var missing;
      files', missing := Redirections(files);
      if missing { return args', files', false, Failed("missing file for redirection"); }
      more, o := true, Failed("");
    }

    /** parseexec. */
    method ReadExec() returns (o: Outcome)
      requires Valid()
      modifies this
      ensures Valid() && old(pos) <= pos && Agrees(o, pos, ParseExec(line, old(pos)))
      decreases |line| - pos, 1
    {
      var block := Peek("(");
      if block {
        o := ReadBlock();
        return;
      }
      var files, missing := Redirections([]);
      if missing { return Failed("missing file for redirection"); }
      o := ReadArgs(files);
    }

    /** parseblock. */
    method ReadBlock() returns (o: Outcome)
      requires Valid() && pos < |line| && line[pos] == '('
      modifies this
      ensures Valid() && old(pos) <= pos && Agrees(o, pos, ParseBlock(line, old(pos)))
      decreases |line| - pos, 0
    {
      var _, _, _ := NextToken();
      o := ReadLine();
      if o.Failed? { return; }
      var close := Peek(")");
      if !close { return Failed("syntax - missing )"); }
      var _, _, _ := NextToken();
      var files, missing := Redirections([]);
      if missing { return Failed("missing file for redirection"); }
      o := Built(Wrap(o.cmd, files));
    }

    /** parsepipe. */
    method ReadPipe() returns (o: Outcome)
      requires Valid()
      modifies this
      ensures Valid() && old(pos) <= pos && Agrees(o, pos, ParsePipe(line, old(pos)))
      decreases |line| - pos, 2
    {
      o := ReadExec();
      if o.Failed? { return; }
      var bar := Peek("|");
      if bar {
        var left := o.cmd;
        var _, _, _ := NextToken();
        o := ReadPipe();
        if o.Built? { o := Built(Pipe(left, o.cmd)); }
      }
    }

    /** parseline. */
    method ReadLine() returns (o: Outcome)
      requires Valid()
      modifies this
      ensures Valid() && old(pos) <= pos && Agrees(o, pos, ParseLine(line, old(pos)))
      decreases |line| - pos, 3
    {
      o := ReadPipe();
      if o.Failed? { return; }
      var cmd := o.cmd;
      ghost var piped := ParsePipe(line, old(pos));
      var back := Peek("&");
      while back
        invariant Valid() && old(pos) <= pos == Skip(line, pos)
        invariant back <==> At(line, pos) == '&'
        invariant ParseBacks(line, pos, cmd) == ParseBacks(line, piped.pos, piped.cmd)
        decreases |line| - pos
      {
        var _, _, _ := NextToken();
        cmd := Back(cmd);
        back := Peek("&");
      }
      var more := Peek(";");
      o := Built(cmd);
      if more {
        var _, _, _ := NextToken();
        o := ReadLine();
        if o.Built? { o := Built(List(cmd, o.cmd)); }
      }
    }

    /** parsecmd up to nulterminate. */
    method ReadCmd() returns (o: Outcome)
      requires Valid() && pos == 0
      modifies this
      ensures Agrees(o, pos, ParseCmd(line))
    {
      o := ReadLine();
      if o.Failed? { return; }
      var _ := Peek("");
      if pos != |line| { o := Failed("syntax"); }
    }
  }

  /** nulterminate, writing into the line's buffer. */
  method NulTerminate(c: Cmd<Span>, buf: array<char>)
    requires forall e :: e in Ends(c) ==> e < buf.Length
    modifies buf
    ensures buf[..] == Terminated(old(buf[..]), Ends(c))
    decreases c
  {
    match c
    case Exec(args) =>
      var i := 0;
      while i < |args|
        invariant 0 <= i <= |args|
        invariant forall k: nat :: k < buf.Length ==>
          buf[k] == if exists j :: 0 <= j < i && args[j].eq == k then '\0' else old(buf[k])
      {
        assert args[i] in args && args[i].eq in Ends(c);
        buf[args[i].eq] := '\0';
        i := i + 1;
      }
    case Redir(d, f, _, _) =>
      assert Ends(c) == Ends(d) + {f.eq};
      NulTerminate(d, buf);
      buf[f.eq] := '\0';
    case Pipe(l, r) =>
      assert Ends(c) == Ends(l) + Ends(r);
      NulTerminate(l, buf);
      NulTerminate(r, buf);
    case List(l, r) =>
      assert Ends(c) == Ends(l) + Ends(r);
      NulTerminate(l, buf);
      NulTerminate(r, buf);
    case Back(d) =>
      assert Ends(c) == Ends(d);
      NulTerminate(d, buf);
  }
}
