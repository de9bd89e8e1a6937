/**
 The regular-expression matcher of user/grep.c.  Patterns and texts are C
 strings: `s[|s|]` stands for the terminating NUL, and no character is NUL.
 */
module Grep {

  const NUL: char := '\0'

  predicate CString(s: string) {
    NUL !in s
  }

  /** The character at index i, the terminator at the end. */
  function At(s: string, i: nat): (c: char)
    requires i <= |s|
  {
    if i < |s| then s[i] else NUL
  }

  // ---- What a pattern means ----

  /** One position of a pattern: a character class, matched once or any number of times. */
  datatype Item = One(c: char) | Many(c: char)

  /** `.` stands for every character, anything else for itself. */
  predicate Fits(c: char, x: char) {
    c == '.' || c == x
  }

  predicate AllFit(c: char, w: string) {
    forall i :: 0 <= i < |w| ==> Fits(c, w[i])
  }

  /** The words an item denotes. */
  predicate ItemWord(item: Item, w: string) {
    match item
    case One(c) => |w| == 1 && Fits(c, w[0])
    case Many(c) => AllFit(c, w)
  }

  /** The language of a list of items: concatenations of one word per item. */
  predicate InLanguage(items: seq<Item>, w: string) {
    if items == [] then w == ""
    else exists k :: 0 <= k <= |w| && ItemWord(items[0], w[..k]) && InLanguage(items[1..], w[k..])
  }

  /** A pattern: its items, and whether a final `$` ties it to the end of the text. */
  datatype Pattern = Pattern(items: seq<Item>, toEnd: bool)

  /** How the pattern text reads: `c*`, then a final `$`, then single characters. */
  function Parse(re: string): (p: Pattern) {
    if re == "" then Pattern([], false)
    else if |re| >= 2 && re[1] == '*' then
      var rest := Parse(re[2..]);
      Pattern([Many(re[0])] + rest.items, rest.toEnd)
    else if re == "$" then Pattern([], true)
    else
      var rest := Parse(re[1..]);
      Pattern([One(re[0])] + rest.items, rest.toEnd)
  }

  /** The pattern matches the part text[i..j], which must reach the end if the pattern says so. */
  predicate MatchesPart(p: Pattern, text: string, i: nat, j: nat) {
    i <= j <= |text| && InLanguage(p.items, text[i..j]) && (p.toEnd ==> j == |text|)
  }

  predicate MatchesAt(p: Pattern, text: string, i: nat) {
    exists j :: i <= j <= |text| && MatchesPart(p, text, i, j)
  }

  /** What grep promises: some substring, or a prefix under a leading `^`. */
  predicate Matches(re: string, text: string) {
    if |re| > 0 && re[0] == '^' then MatchesAt(Parse(re[1..]), text, 0)
    else exists i :: 0 <= i <= |text| && MatchesAt(Parse(re), text, i)
  }

  // ---- Unfolding the meaning at one position ----

  lemma EmptyAt(p: Pattern, text: string, i: nat)
    requires p.items == [] && i <= |text|
    ensures MatchesAt(p, text, i) <==> (p.toEnd ==> i == |text|)
  {
    if p.toEnd ==> i == |text| {
      assert text[i..i] == "";
      assert MatchesPart(p, text, i, i);
    }
    if MatchesAt(p, text, i) {
      var j :| i <= j <= |text| && MatchesPart(p, text, i, j);
      assert text[i..j] == "";
    }
  }

  /** A part is in the language iff it splits after a word of the first item. */
  lemma PartSplits(p: Pattern, text: string, i: nat, j: nat)
    requires p.items != [] && i <= j <= |text|
    ensures MatchesPart(p, text, i, j) <==>
      exists k :: i <= k <= j && ItemWord(p.items[0], text[i..k]) && MatchesPart(Pattern(p.items[1..], p.toEnd), text, k, j)
  {
    var w, rest := text[i..j], Pattern(p.items[1..], p.toEnd);
    if MatchesPart(p, text, i, j) {
      var k :| 0 <= k <= |w| && ItemWord(p.items[0], w[..k]) && InLanguage(p.items[1..], w[k..]);
      assert w[..k] == text[i..i + k] && w[k..] == text[i + k..j];
      assert ItemWord(p.items[0], text[i..i + k]) && MatchesPart(rest, text, i + k, j);
    }
    if k :| i <= k <= j && ItemWord(p.items[0], text[i..k]) && MatchesPart(rest, text, k, j) {
      assert w[..k - i] == text[i..k] && w[k - i..] == text[k..j];
    }
  }

  lemma ConsAt(p: Pattern, text: string, i: nat)
    requires p.items != [] && i <= |text|
    ensures MatchesAt(p, text, i) <==>
      exists k :: i <= k <= |text| && ItemWord(p.items[0], text[i..k]) && MatchesAt(Pattern(p.items[1..], p.toEnd), text, k)
  {
    var rest := Pattern(p.items[1..], p.toEnd);
    if MatchesAt(p, text, i) {
      var j :| i <= j <= |text| && MatchesPart(p, text, i, j);
      PartSplits(p, text, i, j);
      var k :| i <= k <= j && ItemWord(p.items[0], text[i..k]) && MatchesPart(rest, text, k, j);
      assert MatchesAt(rest, text, k);
    }
    if k :| i <= k <= |text| && ItemWord(p.items[0], text[i..k]) && MatchesAt(rest, text, k) {
      var j :| k <= j <= |text| && MatchesPart(rest, text, k, j);
      PartSplits(p, text, i, j);
      assert MatchesPart(p, text, i, j);
    }
  }

  lemma OneWord(c: char, text: string, i: nat, k: nat)
    requires i <= k <= |text|
    ensures ItemWord(One(c), text[i..k]) <==> k == i + 1 && Fits(c, text[i])
  {
  }

  /** A single character takes one character of the text. */
  lemma OneItemAt(c: char, rest: Pattern, text: string, i: nat)
    requires i <= |text|
    ensures MatchesAt(Pattern([One(c)] + rest.items, rest.toEnd), text, i) <==>
      i < |text| && Fits(c, text[i]) && MatchesAt(rest, text, i + 1)
  {
    var p := Pattern([One(c)] + rest.items, rest.toEnd);
    ConsAt(p, text, i);
    assert Pattern(p.items[1..], p.toEnd) == rest;
    if i < |text| {
      OneWord(c, text, i, i + 1);
    }
    if MatchesAt(p, text, i) {
      var k :| i <= k <= |text| && ItemWord(One(c), text[i..k]) && MatchesAt(rest, text, k);
      OneWord(c, text, i, k);
    }
  }

  lemma OneAt(re: string, text: string, i: nat)
    requires re != "" && !(|re| >= 2 && re[1] == '*') && re != "$" && i <= |text|
    ensures MatchesAt(Parse(re), text, i) <==>
      i < |text| && Fits(re[0], text[i]) && MatchesAt(Parse(re[1..]), text, i + 1)
  {
    OneItemAt(re[0], Parse(re[1..]), text, i);
  }

  lemma ManyAt(re: string, text: string, i: nat)
    requires |re| >= 2 && re[1] == '*' && i <= |text|
    ensures MatchesAt(Parse(re), text, i) <==>
      exists k :: i <= k <= |text| && AllFit(re[0], text[i..k]) && MatchesAt(Parse(re[2..]), text, k)
  {
    var p := Parse(re);
    ConsAt(p, text, i);
    assert Pattern(p.items[1..], p.toEnd) == Parse(re[2..]);
  }

  // ---- The matcher ----

  /** matchhere: the pattern re[r..] at the beginning of text[i..]. */
  method MatchHere(re: string, r: nat, text: string, i: nat) returns (found: bool)
    requires CString(re) && CString(text) && r <= |re| && i <= |text|
    ensures found <==> MatchesAt(Parse(re[r..]), text, i)
    decreases |re| - r, |text| - i, 0
  {
    if At(re, r) == NUL {
      assert re[r..] == "";
      EmptyAt(Parse(re[r..]), text, i);
      return true;
    }
    assert re[r..][0] == re[r];
    if At(re, r + 1) == '*' {
      ManyAt(re[r..], text, i);
      assert re[r..][2..] == re[r + 2..];
      found := MatchStar(re[r], re, r + 2, text, i);
      return;
    }
    if re[r] == '$' && At(re, r + 1) == NUL {
      assert re[r..] == "$";
      EmptyAt(Parse(re[r..]), text, i);
      return At(text, i) == NUL;
    }
    assert re[r..] != "$";
    OneAt(re[r..], text, i);
    assert re[r..][1..] == re[r + 1..];
    if At(text, i) != NUL && (re[r] == '.' || re[r] == At(text, i)) {
      found := MatchHere(re, r + 1, text, i + 1);
      return;
    }
    return false;
  }

  /** matchstar: c* followed by re[r..] at the beginning of text[i..]. */
  method MatchStar(c: char, re: string, r: nat, text: string, i: nat) returns (found: bool)
    requires CString(re) && CString(text) && r <= |re| && i <= |text|
    ensures found <==>
      exists k :: i <= k <= |text| && AllFit(c, text[i..k]) && MatchesAt(Parse(re[r..]), text, k)
    decreases |re| - r, |text| - i, 1
  {
    var t := i;
    while true
      invariant i <= t <= |text| && AllFit(c, text[i..t])
      invariant forall k :: i <= k < t ==> !MatchesAt(Parse(re[r..]), text, k)
      decreases |text| - t
    {
      found := MatchHere(re, r, text, t);
      if found {
        return;
      }
      if !(At(text, t) != NUL && (At(text, t) == c || c == '.')) {
        forall k | t < k <= |text| ensures !AllFit(c, text[i..k]) {
          assert text[i..k][t - i] == text[t];
        }
        return false;
      }
      assert text[i..t + 1] == text[i..t] + [text[t]];
      t := t + 1;
    }
  }

  /** match: sound and complete for the language of the pattern. */
  method Match(re: string, text: string) returns (found: bool)
    requires CString(re) && CString(text)
    ensures found <==> Matches(re, text)
  {
    if At(re, 0) == '^' {
      found := MatchHere(re, 1, text, 0);
      return;
    }
    assert re[0..] == re;
    var t := 0;
    while true
      invariant t <= |text|
      invariant forall i :: 0 <= i < t ==> !MatchesAt(Parse(re), text, i)
      decreases |text| - t
    {
      found := MatchHere(re, 0, text, t);
      if found {
        return;
      }
      if At(text, t) == NUL {
        return false;
      }
      t := t + 1;
    }
  }
}
