/** The regular-expression matcher of user/grep.c against what its patterns mean. Texts and patterns are the
    characters before the terminating NUL. */
module Grep {

  // ---------------------------------------------------------------- what a pattern means

  /** One character, or any number of them. */
  datatype Item = One(c: char) | Many(c: char)

  /** The items of a pattern, and whether it ends in an anchor. */
  datatype Pattern = Pattern(items: seq<Item>, atEnd: bool)

  /** x* is Many, a final $ an anchor, and everything else stands for one character. */
  function Parse(re: string): (p: Pattern)
    decreases |re|
  {
    if re == [] then Pattern([], false)
    else if |re| >= 2 && re[1] == '*' then var p := Parse(re[2..]); Pattern([Many(re[0])] + p.items, p.atEnd)
    else if re == "$" then Pattern([], true)
    else var p := Parse(re[1..]); Pattern([One(re[0])] + p.items, p.atEnd)
  }

  predicate Accepts(c: char, x: char) { c == '.' || c == x }

  predicate AllAccepted(c: char, w: string) {
    forall i | 0 <= i < |w| :: Accepts(c, w[i])
  }

  /** The string w is in the language of the items. */
  ghost predicate InLanguage(items: seq<Item>, w: string)
    decreases |items|
  {
    if items == [] then w == []
    else match items[0]
      case One(c) => |w| > 0 && Accepts(c, w[0]) && InLanguage(items[1..], w[1..])
      case Many(c) => exists k: nat :: k <= |w| && AllAccepted(c, w[..k]) && InLanguage(items[1..], w[k..])
  }

  /** The first n characters of text are in the language, and are all of it if the pattern is anchored. */
  ghost predicate StartsWith(p: Pattern, text: string, n: nat) {
    n <= |text| && InLanguage(p.items, text[..n]) && (p.atEnd ==> n == |text|)
  }

  /** Some string of the pattern's language starts text. */
  ghost predicate Here(p: Pattern, text: string) {
    exists n: nat :: StartsWith(p, text, n)
  }

  /** Some string of the language starts at position i of text. */
  ghost predicate At(p: Pattern, text: string, i: nat) {
    i <= |text| && Here(p, text[i..])
  }

  /** What grep looks for: a string of the language somewhere in the text, at its beginning after ^. */
  ghost predicate Matches(re: string, text: string) {
    if |re| > 0 && re[0] == '^' then Here(Parse(re[1..]), text) else exists i: nat :: At(Parse(re), text, i)
  }

  // ---------------------------------------------------------------- taking off the first item

  lemma HereOne(c: char, p: Pattern, text: string)
    ensures Here(Pattern([One(c)] + p.items, p.atEnd), text) <==> text != [] && Accepts(c, text[0]) && Here(p, text[1..])
  {
    var q := Pattern([One(c)] + p.items, p.atEnd);
    assert q.items[1..] == p.items;
    if n: nat :| StartsWith(q, text, n) {
      assert text[..n][1..] == text[1..][..n - 1];
      assert StartsWith(p, text[1..], n - 1);
    }
    if text != [] && Accepts(c, text[0]) && Here(p, text[1..]) {
      var n: nat :| StartsWith(p, text[1..], n);
      assert text[..n + 1][1..] == text[1..][..n];
      assert StartsWith(q, text, n + 1);
    }
  }

  /** k characters that c accepts come first, and the rest of the pattern starts what follows. */
  ghost predicate After(c: char, p: Pattern, text: string, k: nat) {
    k <= |text| && AllAccepted(c, text[..k]) && Here(p, text[k..])
  }

  ghost predicate Repeats(c: char, p: Pattern, text: string) {
    exists k: nat :: After(c, p, text, k)
  }

  lemma HereMany(c: char, p: Pattern, text: string)
    ensures Here(Pattern([Many(c)] + p.items, p.atEnd), text) <==> Repeats(c, p, text)
  {
    var q := Pattern([Many(c)] + p.items, p.atEnd);
    assert q.items[1..] == p.items;
    if n: nat :| StartsWith(q, text, n) {
      var k: nat :| k <= n && AllAccepted(c, text[..n][..k]) && InLanguage(p.items, text[..n][k..]);
      assert text[..n][..k] == text[..k] && text[..n][k..] == text[k..][..n - k];
      assert StartsWith(p, text[k..], n - k);
      assert After(c, p, text, k);
    }
    if k: nat :| After(c, p, text, k) {
      var n: nat :| StartsWith(p, text[k..], n);
      assert text[..k + n][..k] == text[..k] && text[..k + n][k..] == text[k..][..n];
      assert StartsWith(q, text, k + n);
    }
  }

  lemma HereNothing(text: string)
    ensures Here(Pattern([], false), text) && (Here(Pattern([], true), text) <==> text == [])
  {
    assert text[..0] == [];
    assert StartsWith(Pattern([], false), text, 0);
    if text == [] { assert StartsWith(Pattern([], true), text, 0); }
  }

  // ---------------------------------------------------------------- the matcher

  /** matchhere. */
  method MatchHere(re: string, text: string) returns (r: bool)
    ensures r <==> Here(Parse(re), text)
    decreases |re|, 0
  {
    HereNothing(text);
    if re == [] { return true; }
    if |re| >= 2 && re[1] == '*' {
      var p := Parse(re[2..]);
      HereMany(re[0], p, text);
      assert Parse(re) == Pattern([Many(re[0])] + p.items, p.atEnd);
      r := MatchStar(re[0], re[2..], text);
      return;
    }
    if re[0] == '$' && |re| == 1 {
      assert re == "$";
      return text == [];
    }
    HereOne(re[0], Parse(re[1..]), text);
    if text != [] && (re[0] == '.' || re[0] == text[0]) {
      r := MatchHere(re[1..], text[1..]);
      return;
    }
    return false;
  }

  /** matchstar: tries the rest of the pattern after 0, 1, 2, ... characters that c accepts. */
  method MatchStar(c: char, re: string, text: string) returns (r: bool)
    ensures r <==> Repeats(c, Parse(re), text)
    decreases |re|, 1
  {
    var i := 0;
    while true
      invariant i <= |text| && AllAccepted(c, text[..i]) && forall k: nat | k < i :: !After(c, Parse(re), text, k)
      decreases |text| - i
    {
      r := MatchHere(re, text[i..]);
      if r {
        assert After(c, Parse(re), text, i);
        return;
      }
      if i == |text| || !(text[i] == c || c == '.') {
        NoLonger(c, Parse(re), text, i);
        return false;
      }
      i := i + 1;
    }
  }

  /** Where c stops accepting, no later start of the rest counts. */
  lemma NoLonger(c: char, p: Pattern, text: string, i: nat)
    requires i <= |text| && (i == |text| || !Accepts(c, text[i]))
    ensures forall k: nat | k > i :: !After(c, p, text, k)
  {
    forall k: nat | k > i ensures !After(c, p, text, k) {
      if k <= |text| { assert text[..k][i] == text[i]; }
    }
  }

  /** match finds exactly the texts in which a string of the pattern's language starts somewhere, or, after ^, at
      the beginning. */
  method Match(re: string, text: string) returns (r: bool)
    ensures r <==> Matches(re, text)
  {
    if |re| > 0 && re[0] == '^' {
      r := MatchHere(re[1..], text);
      return;
    }
    var i := 0;
    while true
      invariant i <= |text| && forall j: nat | j < i :: !At(Parse(re), text, j)
      decreases |text| - i
    {
      r := MatchHere(re, text[i..]);
      if r {
        assert At(Parse(re), text, i);
        return;
      }
      if i == |text| { return false; }
      i := i + 1;
    }
  }
}
