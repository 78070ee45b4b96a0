/**
 The regular-expression matcher of user/grep.c. C strings are sequences without the
 character 0; position |s| stands for the terminating 0.
 */
module Grep {
  predicate CString(s: string) { forall i :: 0 <= i < |s| ==> s[i] != '\0' }

  /** The character a C program reads at a position. */
  function At(s: string, i: nat): char
    requires i <= |s|
  {
    if i < |s| then s[i] else '\0'
  }

  // ---------- The language of a pattern ----------

  datatype Item = One(c: char) | Star(c: char)

  // atEnd: the pattern ends in an anchor
  datatype Pattern = Pattern(items: seq<Item>, atEnd: bool)

  predicate Fits(c: char, x: char) { c == '.' || c == x }

  /**
   The pattern from position r on. A star binds to the character before it even when
   that is '$', '.' or '*'; '$' is an anchor only as the last character.
   */
  function Parse(re: string, r: nat): Pattern
    requires r <= |re|
    decreases |re| - r
  {
    if r == |re| then Pattern([], false)
    else if r + 1 < |re| && re[r + 1] == '*' then
      var p := Parse(re, r + 2);
      p.(items := [Star(re[r])] + p.items)
    else if r + 1 == |re| && re[r] == '$' then Pattern([], true)
    else
      var p := Parse(re, r + 1);
      p.(items := [One(re[r])] + p.items)
  }

  /** An item matches the text between two positions. */
  predicate Covers(x: Item, text: string, a: nat, b: nat) {
    && a <= b <= |text|
    && match x
       case One(c) => b == a + 1 && Fits(c, text[a])
       case Star(c) => forall k :: a <= k < b ==> Fits(c, text[k])
  }

  /** Consecutive pieces of the text, one for each item. */
  ghost predicate Splits(items: seq<Item>, text: string, cuts: seq<nat>) {
    && |cuts| == |items| + 1
    && forall m: nat {:trigger items[m]} :: m < |items| ==> Covers(items[m], text, cuts[m], cuts[m + 1])
  }

  /** The text between i and j is in the language of the items. */
  ghost predicate InLanguage(items: seq<Item>, text: string, i: nat, j: nat) {
    exists cuts: seq<nat> :: Splits(items, text, cuts) && cuts[0] == i && cuts[|items|] == j
  }

  /** A match starts at position i. */
  ghost predicate StartsAt(p: Pattern, text: string, i: nat) {
    exists j: nat :: EndsAt(p, text, i, j)
  }

  ghost predicate EndsAt(p: Pattern, text: string, i: nat, j: nat) {
    i <= |text| && j <= |text| && InLanguage(p.items, text, i, j) && (p.atEnd ==> j == |text|)
  }

  /** The text contains a substring in the language; '^' in front ties it to the start. */
  ghost predicate Found(re: string, text: string) {
    if re != "" && re[0] == '^' then StartsAt(Parse(re, 1), text, 0)
    else exists i: nat :: i <= |text| && StartsAt(Parse(re, 0), text, i)
  }

  // ---------- Unfolding the language ----------

  lemma Consed(x: Item, rest: seq<Item>, text: string, i: nat, k: nat, j: nat)
    requires Covers(x, text, i, k) && InLanguage(rest, text, k, j)
    ensures InLanguage([x] + rest, text, i, j)
  {
    var cuts :| Splits(rest, text, cuts) && cuts[0] == k && cuts[|rest|] == j;
    var items, longer := [x] + rest, [i] + cuts;
    forall m: nat {:trigger items[m]} | m < |items|
      ensures Covers(items[m], text, longer[m], longer[m + 1])
    {
      if m > 0 { assert items[m] == rest[m - 1]; }
    }
    assert Splits(items, text, longer) && longer[|items|] == j;
  }

  lemma Unconsed(x: Item, rest: seq<Item>, text: string, i: nat, j: nat) returns (k: nat)
    requires InLanguage([x] + rest, text, i, j)
    ensures Covers(x, text, i, k) && InLanguage(rest, text, k, j)
  {
    var items := [x] + rest;
    var cuts :| Splits(items, text, cuts) && cuts[0] == i && cuts[|items|] == j;
    assert items[0] == x;
    k := cuts[1];
    var shorter := cuts[1..];
    forall m: nat {:trigger rest[m]} | m < |rest|
      ensures Covers(rest[m], text, shorter[m], shorter[m + 1])
    {
      assert items[m + 1] == rest[m];
    }
    assert Splits(rest, text, shorter) && shorter[0] == k && shorter[|rest|] == j;
  }

  lemma EmptyLanguage(text: string, i: nat, j: nat)
    ensures InLanguage([], text, i, j) <==> i == j
  {
    if i == j { assert Splits([], text, [i]); }
  }

  lemma StartsEmpty(atEnd: bool, text: string, i: nat)
    requires i <= |text|
    ensures StartsAt(Pattern([], atEnd), text, i) <==> (atEnd ==> i == |text|)
  {
    var p := Pattern([], atEnd);
    EmptyLanguage(text, i, i);
    if atEnd ==> i == |text| { assert EndsAt(p, text, i, i); }
    if StartsAt(p, text, i) {
      var j: nat :| EndsAt(p, text, i, j);
      EmptyLanguage(text, i, j);
    }
  }

  lemma StartsOne(c: char, p: Pattern, text: string, i: nat)
    requires i <= |text|
    ensures StartsAt(p.(items := [One(c)] + p.items), text, i) <==>
      i < |text| && Fits(c, text[i]) && StartsAt(p, text, i + 1)
  {
    var q := p.(items := [One(c)] + p.items);
    if StartsAt(q, text, i) {
      var j: nat :| EndsAt(q, text, i, j);
      var k := Unconsed(One(c), p.items, text, i, j);
      assert EndsAt(p, text, k, j);
    }
    if i < |text| && Fits(c, text[i]) && StartsAt(p, text, i + 1) {
      var j: nat :| EndsAt(p, text, i + 1, j);
      Consed(One(c), p.items, text, i, i + 1, j);
      assert EndsAt(q, text, i, j);
    }
  }

  /** A star stands for any run of fitting characters. */
  lemma StartsStar(c: char, p: Pattern, text: string, i: nat)
    requires i <= |text|
    ensures StartsAt(p.(items := [Star(c)] + p.items), text, i) <==>
      exists k: nat :: Covers(Star(c), text, i, k) && StartsAt(p, text, k)
  {
    var q := p.(items := [Star(c)] + p.items);
    if StartsAt(q, text, i) {
      var j: nat :| EndsAt(q, text, i, j);
      var k := Unconsed(Star(c), p.items, text, i, j);
      assert EndsAt(p, text, k, j);
      assert Covers(Star(c), text, i, k) && StartsAt(p, text, k);
    }
    if exists k: nat :: Covers(Star(c), text, i, k) && StartsAt(p, text, k) {
      var k: nat :| Covers(Star(c), text, i, k) && StartsAt(p, text, k);
      var j: nat :| EndsAt(p, text, k, j);
      Consed(Star(c), p.items, text, i, k, j);
      assert EndsAt(q, text, i, j);
    }
  }

  // ---------- The matcher ----------

  method Match(re: string, text: string) returns (b: bool)
    requires CString(re) && CString(text)
    ensures b <==> Found(re, text)
  {
    if At(re, 0) == '^' {
      b := MatchHere(re, 1, text, 0);
      return;
    }
    var t := 0;
    while true
      invariant t <= |text| && forall i: nat :: i < t ==> !StartsAt(Parse(re, 0), text, i)
      decreases |text| - t
    {
      b := MatchHere(re, 0, text, t);
      if b { return; }
      if At(text, t) == '\0' { break; }
      t := t + 1;
    }
    b := false;
  }

  method MatchHere(re: string, r: nat, text: string, t: nat) returns (b: bool)
    requires CString(re) && CString(text) && r <= |re| && t <= |text|
    ensures b <==> StartsAt(Parse(re, r), text, t)
    decreases |re| - r, 0
  {
    if At(re, r) == '\0' {
      StartsEmpty(false, text, t);
      return true;
    }
    if At(re, r + 1) == '*' {
      StartsStar(re[r], Parse(re, r + 2), text, t);
      b := MatchStar(re[r], re, r + 2, text, t);
      return;
    }
    if re[r] == '$' && At(re, r + 1) == '\0' {
      StartsEmpty(true, text, t);
      return At(text, t) == '\0';
    }
    StartsOne(re[r], Parse(re, r + 1), text, t);
    if At(text, t) != '\0' && (re[r] == '.' || re[r] == text[t]) {
      b := MatchHere(re, r + 1, text, t + 1);
      return;
    }
    b := false;
  }

  method MatchStar(c: char, re: string, r: nat, text: string, start: nat) returns (b: bool)
    requires CString(re) && CString(text) && r <= |re| && start <= |text|
    ensures b <==> exists k: nat :: Covers(Star(c), text, start, k) && StartsAt(Parse(re, r), text, k)
    decreases |re| - r, 1
  {
    var t := start;
    while true
      invariant start <= t <= |text| && Covers(Star(c), text, start, t)
      invariant forall k: nat :: start <= k < t ==> !StartsAt(Parse(re, r), text, k)
      decreases |text| - t
    {
      b := MatchHere(re, r, text, t);
      if b { return; }
      if At(text, t) == '\0' || !(text[t] == c || c == '.') { break; }
      t := t + 1;
    }
    forall k: nat | Covers(Star(c), text, start, k)
      ensures !StartsAt(Parse(re, r), text, k)
    {
      assert k > t ==> Fits(c, text[t]);
    }
    b := false;
  }
}
