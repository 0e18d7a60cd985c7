/** The regular expression matcher of Lab3/xv6-riscv/user/grep.c against the language its
    patterns denote. Strings are C strings: a character past the end reads as NUL. */
module Grep {

  /** What one piece of a pattern stands for; '.' stands for any character. */
  datatype Item = One(c: char) | Star(c: char)

  predicate Fits(c: char, x: char) { c == '.' || c == x }

  /** The words of an item: one fitting character, or any number of them. */
  predicate InItem(item: Item, w: string) {
    && (item.One? ==> |w| == 1)
    && forall i :: 0 <= i < |w| ==> Fits(item.c, w[i])
  }

  /** The items of a pattern. A star belongs to the character before it, even another
      star or a $; a final $ on its own is an anchor and no item. */
  function Items(re: string): seq<Item> {
    if re == "" || re == "$" then []
    else if |re| > 1 && re[1] == '*' then [Star(re[0])] + Items(re[2..])
    else [One(re[0])] + Items(re[1..])
  }

  /** Whether the pattern ends in an anchor. */
  predicate AtEnd(re: string) {
    if re == "" then false
    else if |re| > 1 && re[1] == '*' then AtEnd(re[2..])
    else re == "$" || AtEnd(re[1..])
  }

  function Join(words: seq<string>): string {
    if words == [] then "" else words[0] + Join(words[1..])
  }

  /** words takes the language of the items apart, item by item. */
  predicate Denotes(items: seq<Item>, words: seq<string>) {
    |items| == |words| && forall i :: 0 <= i < |items| ==> InItem(items[i], words[i])
  }

  /** The beginning of text, up to rest, is a word of the pattern. */
  ghost predicate Splits(re: string, text: string, words: seq<string>, rest: string) {
    && text == Join(words) + rest && Denotes(Items(re), words)
    && (AtEnd(re) ==> rest == "")
  }

  ghost predicate Here(re: string, text: string) {
    exists words, rest :: Splits(re, text, words, rest)
  }

  /** Some substring of text is a word of the pattern: any, or for ^ one at the beginning,
      and for a final $ one at the end. */
  ghost predicate Matches(re: string, text: string) {
    if re != "" && re[0] == '^' then Here(re[1..], text)
    else exists j :: 0 <= j <= |text| && Here(re, text[j..])
  }

  // ---- the language, case by case ----

  lemma HereEmpty(text: string)
    ensures Here("", text)
  {
    assert Splits("", text, [], text);
  }

  lemma HereEnd(text: string)
    ensures Here("$", text) <==> text == ""
  {
    assert text == "" ==> Splits("$", text, [], "");
    if Here("$", text) {
      var words, rest :| Splits("$", text, words, rest);
    }
  }

  predicate Single(re: string) { re != "" && re != "$" && !(|re| > 1 && re[1] == '*') }

  lemma OneSplits(re: string, text: string, words: seq<string>, rest: string)
    requires Single(re) && Splits(re, text, words, rest)
    ensures words != [] && text != "" && Fits(re[0], text[0]) && Splits(re[1..], text[1..], words[1..], rest)
  {
    assert InItem(Items(re)[0], words[0]);
    assert text == words[0] + (Join(words[1..]) + rest);
    assert text[1..] == Join(words[1..]) + rest;
    hide Join;
  }

  lemma SplitsOne(re: string, text: string, words: seq<string>, rest: string)
    requires Single(re) && text != "" && Fits(re[0], text[0]) && Splits(re[1..], text[1..], words, rest)
    ensures Splits(re, text, [text[..1]] + words, rest)
  {
    assert Join([text[..1]] + words) == text[..1] + Join(words);
    assert text == text[..1] + text[1..];
    hide Join;
  }

  lemma HereOne(re: string, text: string)
    requires Single(re)
    ensures Here(re, text) <==> text != "" && Fits(re[0], text[0]) && Here(re[1..], text[1..])
  {
    hide Splits;
    if Here(re, text) {
      var words, rest :| Splits(re, text, words, rest);
      OneSplits(re, text, words, rest);
    }
    if text != "" && Fits(re[0], text[0]) && Here(re[1..], text[1..]) {
      var words, rest :| Splits(re[1..], text[1..], words, rest);
      SplitsOne(re, text, words, rest);
    }
  }

  /** The first k characters of text all fit c. */
  predicate Run(c: char, text: string, k: nat) {
    k <= |text| && forall i :: 0 <= i < k ==> Fits(c, text[i])
  }

  ghost predicate StarHere(c: char, re: string, text: string) {
    exists k: nat :: Run(c, text, k) && Here(re, text[k..])
  }

  lemma StarSplits(re: string, text: string, words: seq<string>, rest: string)
    requires |re| > 1 && re[1] == '*' && Splits(re, text, words, rest)
    ensures StarHere(re[0], re[2..], text)
  {
    var w := words[0];
    assert InItem(Items(re)[0], w);
    assert text == w + (Join(words[1..]) + rest);
    hide Join;
    assert text[..|w|] == w && text[|w|..] == Join(words[1..]) + rest;
    assert Splits(re[2..], text[|w|..], words[1..], rest);
    assert Run(re[0], text, |w|) by {
      forall i | 0 <= i < |w| ensures Fits(re[0], text[i]) { assert text[i] == w[i]; }
    }
  }

  lemma SplitsStar(re: string, text: string, k: nat, words: seq<string>, rest: string)
    requires |re| > 1 && re[1] == '*' && Run(re[0], text, k) && Splits(re[2..], text[k..], words, rest)
    ensures Splits(re, text, [text[..k]] + words, rest)
  {
    hide Join;
    JoinCons(text[..k], words);
    assert text == text[..k] + text[k..];
  }

  lemma JoinCons(w: string, words: seq<string>)
    ensures Join([w] + words) == w + Join(words)
  {
    assert ([w] + words)[1..] == words;
  }

  lemma HereStar(re: string, text: string)
    requires |re| > 1 && re[1] == '*'
    ensures Here(re, text) <==> StarHere(re[0], re[2..], text)
  {
    hide Splits;
    if Here(re, text) {
      var words, rest :| Splits(re, text, words, rest);
      StarSplits(re, text, words, rest);
    }
    if StarHere(re[0], re[2..], text) {
      var k: nat :| Run(re[0], text, k) && Here(re[2..], text[k..]);
      var words, rest :| Splits(re[2..], text[k..], words, rest);
      SplitsStar(re, text, k, words, rest);
    }
  }

  // ---- the code ----

  const NUL := '\0'

  /** A C string holds no NUL before its end. */
  predicate CString(s: string) { NUL !in s }

  function At(s: string, i: nat): char { if i < |s| then s[i] else NUL }

  /** match: the pattern anywhere in the text. */
  method Match(re: string, text: string) returns (found: bool)
    requires CString(re) && CString(text)
    ensures found <==> Matches(re, text)
  {
    if At(re, 0) == '^' {
      found := MatchHere(re, 1, text, 0);
      assert text[0..] == text;
      return;
    }
    assert re[0..] == re;
    var t := 0;
    while true
      invariant t <= |text| && forall j :: 0 <= j < t ==> !Here(re, text[j..])
      decreases |text| - t
    {
      var here := MatchHere(re, 0, text, t);
      if here { return true; }
      if At(text, t) == NUL { return false; }
      t := t + 1;
    }
  }

  /** matchhere: the pattern from re + i at the beginning of text + j. */
  method MatchHere(re: string, i: nat, text: string, j: nat) returns (found: bool)
    requires CString(re) && CString(text) && i <= |re| && j <= |text|
    ensures found <==> Here(re[i..], text[j..])
    decreases |re| - i, 0
  {
    var r, t := re[i..], text[j..];
    if At(re, i) == NUL {
      HereEmpty(t);
      assert r == "";
      return true;
    }
    if At(re, i + 1) == '*' {
      HereStar(r, t);
      assert r[2..] == re[i + 2..];
      found := MatchStar(re[i], re, i + 2, text, j);
      return;
    }
    if At(re, i) == '$' && At(re, i + 1) == NUL {
      HereEnd(t);
      assert r == "$";
      return At(text, j) == NUL;
    }
    HereOne(r, t);
    if At(text, j) != NUL && (At(re, i) == '.' || At(re, i) == At(text, j)) {
      assert r[1..] == re[i + 1..] && t[1..] == text[j + 1..];
      found := MatchHere(re, i + 1, text, j + 1);
      return;
    }
    return false;
  }

  /** matchstar: any number of c, then the pattern from re + i, at text + j. */
  method MatchStar(c: char, re: string, i: nat, text: string, j: nat) returns (found: bool)
    requires CString(re) && CString(text) && i <= |re| && j <= |text|
    ensures found <==> StarHere(c, re[i..], text[j..])
    decreases |re| - i, 1
  {
    var t := j;
    while true
      invariant j <= t <= |text| && Run(c, text[j..], t - j)
      invariant forall k: nat :: k < t - j ==> !Here(re[i..], text[j..][k..])
      decreases |text| - t
    {
      assert text[j..][t - j..] == text[t..];
      var here := MatchHere(re, i, text, t);
      if here { return true; }
      if At(text, t) == NUL { return false; }
      t := t + 1;
      if !(At(text, t - 1) == c || c == '.') { return false; }
    }
  }
}
