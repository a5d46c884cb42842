/** The regular expression matcher of user/grep.c. Strings are without their terminating NUL, so reading
    the terminator is being at the end of the string. */
module Grep {
  datatype Item = Lit(c: char) | Any | Star(c: char) | End

  /** The pattern as the list of its items: 'c*' repeats the character c, '.' is any character, a
      final '$' is the end of the text. '*' at the front, '$' elsewhere and '^' after the first
      position stand for themselves. */
  function Parse(re: string): seq<Item> {
    if re == "" then []
    else if |re| >= 2 && re[1] == '*' then [Star(re[0])] + Parse(re[2..])
    else if re == "$" then [End]
    else [if re[0] == '.' then Any else Lit(re[0])] + Parse(re[1..])
  }

  predicate Fits(c: char, x: char) {
    c == '.' || c == x
  }

  /** The text w, followed by `rest`, is in the language of the items. */
  ghost predicate InLanguage(items: seq<Item>, w: string, rest: string)
    decreases |items|
  {
    if items == [] then w == ""
    else
      match items[0]
      case Lit(c) => w != "" && w[0] == c && InLanguage(items[1..], w[1..], rest)
      case Any => w != "" && InLanguage(items[1..], w[1..], rest)
      case End => w == "" && rest == "" && InLanguage(items[1..], w, rest)
      case Star(c) => exists n :: 0 <= n <= |w| && Repeats(c, w[..n]) && InLanguage(items[1..], w[n..], rest)
  }

  predicate Repeats(c: char, w: string) {
    forall i :: 0 <= i < |w| ==> Fits(c, w[i])
  }

  /** Some prefix of the text is in the language of the items. */
  ghost predicate MatchesAt(items: seq<Item>, text: string) {
    exists k :: 0 <= k <= |text| && InLanguage(items, text[..k], text[k..])
  }

  /** What the pattern means: with a leading '^' it matches at the start, else anywhere. */
  ghost predicate Matches(re: string, text: string) {
    if re != "" && re[0] == '^' then MatchesAt(Parse(re[1..]), text)
    else exists s :: 0 <= s <= |text| && MatchesAt(Parse(re), text[s..])
  }

  lemma EmptyMatches(text: string)
    ensures MatchesAt([], text)
  {
    assert InLanguage([], text[..0], text[0..]);
  }

  lemma EndMatches(text: string)
    ensures MatchesAt([End], text) <==> text == ""
  {
    if text == "" { assert InLanguage([End], text[..0], text[0..]); }
  }

  /** One character item takes one character. */
  lemma OneMatches(item: Item, rest: seq<Item>, text: string)
    requires item.Lit? || item.Any?
    ensures MatchesAt([item] + rest, text) <==>
      text != "" && (item.Any? || item.c == text[0]) && MatchesAt(rest, text[1..])
  {
    var items := [item] + rest;
    assert items[1..] == rest;
    if k :| 0 <= k <= |text| && InLanguage(items, text[..k], text[k..]) {
      assert text[..k][1..] == text[1..][..k - 1] && text[k..] == text[1..][k - 1..];
      assert InLanguage(rest, text[1..][..k - 1], text[1..][k - 1..]);
    }
    if text != "" && (item.Any? || item.c == text[0]) && MatchesAt(rest, text[1..]) {
      var k :| 0 <= k <= |text[1..]| && InLanguage(rest, text[1..][..k], text[1..][k..]);
      assert text[..k + 1][1..] == text[1..][..k] && text[k + 1..] == text[1..][k..];
      assert InLanguage(items, text[..k + 1], text[k + 1..]);
    }
  }

  /** A starred character takes any number of fitting characters. */
  lemma StarMatches(c: char, rest: seq<Item>, text: string)
    ensures MatchesAt([Star(c)] + rest, text) <==>
      exists n :: 0 <= n <= |text| && Repeats(c, text[..n]) && MatchesAt(rest, text[n..])
  {
    var items := [Star(c)] + rest;
    assert items[1..] == rest;
    if k :| 0 <= k <= |text| && InLanguage(items, text[..k], text[k..]) {
      var w := text[..k];
      var n :| 0 <= n <= |w| && Repeats(c, w[..n]) && InLanguage(rest, w[n..], text[k..]);
      assert w[..n] == text[..n] && w[n..] == text[n..][..k - n] && text[k..] == text[n..][k - n..];
      assert InLanguage(rest, text[n..][..k - n], text[n..][k - n..]);
    }
    if n :| 0 <= n <= |text| && Repeats(c, text[..n]) && MatchesAt(rest, text[n..]) {
      var k :| 0 <= k <= |text[n..]| && InLanguage(rest, text[n..][..k], text[n..][k..]);
      var w := text[..n + k];
      assert w[..n] == text[..n] && w[n..] == text[n..][..k] && text[n + k..] == text[n..][k..];
      assert InLanguage(items, text[..n + k], text[n + k..]);
    }
  }

  /** matchhere: does the pattern match at the beginning of the text? */
  method MatchHere(re: string, text: string) returns (b: bool)
    ensures b <==> MatchesAt(Parse(re), text)
    decreases |re|, 0
  {
    if |re| == 0 {
      EmptyMatches(text);
      return true;
    }
    if |re| >= 2 && re[1] == '*' {
      b := MatchStar(re[0], re[2..], text);
      return;
    }
    if re[0] == '$' && |re| == 1 {
      EndMatches(text);
      return text == "";
    }
    OneMatches(if re[0] == '.' then Any else Lit(re[0]), Parse(re[1..]), text);
    if text != "" && (re[0] == '.' || re[0] == text[0]) {
      b := MatchHere(re[1..], text[1..]);
      return;
    }
    return false;
  }

  /** matchstar: does c*re match at the beginning of the text? */
  method MatchStar(c: char, re: string, text: string) returns (b: bool)
    ensures b <==> MatchesAt([Star(c)] + Parse(re), text)
    decreases |re|, 1
  {
    StarMatches(c, Parse(re), text);
    var i := 0;
    while true
      invariant 0 <= i <= |text| && Repeats(c, text[..i])
      invariant forall n :: 0 <= n < i ==> !MatchesAt(Parse(re), text[n..])
      decreases |text| - i
    {
      b := MatchHere(re, text[i..]);
      if b { return; }
      if !(i < |text| && (text[i] == c || c == '.')) { break; }
      i := i + 1;
    }
    assert forall n :: i < n <= |text| ==> text[..n][i] == text[i];
    return false;
  }

  /** match: does the pattern match anywhere in the text? */
  method Match(re: string, text: string) returns (b: bool)
    ensures b <==> Matches(re, text)
  {
    if |re| > 0 && re[0] == '^' {
      b := MatchHere(re[1..], text);
      return;
    }
    var i := 0;
    while true
      invariant 0 <= i <= |text|
      invariant forall s :: 0 <= s < i ==> !MatchesAt(Parse(re), text[s..])
      decreases |text| - i
    {
      b := MatchHere(re, text[i..]);
      if b { return; }
      if i == |text| { return false; }
      i := i + 1;
    }
  }
}
