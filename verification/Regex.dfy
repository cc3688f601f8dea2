/** The regular expression matcher of user/grep.c against the language its patterns denote.
    Strings are C strings without their terminator, so indexing at the length reads NUL. */
module Regex {
  import opened Common

  // ---- What patterns mean ----

  datatype Item = One(c: char) | Many(c: char)

  /** A pattern character admits x. */
  predicate Admits(c: char, x: char) { c == '.' || c == x }

  predicate Denotes(item: Item, w: string) {
    match item
    case One(c) => |w| == 1 && Admits(c, w[0])
    case Many(c) => forall k :: 0 <= k < |w| ==> Admits(c, w[k])
  }

  /** The words of a list of items: concatenations of one word of each. */
  predicate InLanguage(items: seq<Item>, w: string) {
    if items == [] then w == []
    else exists k :: 0 <= k <= |w| && Denotes(items[0], w[..k]) && InLanguage(items[1..], w[k..])
  }

  /** The items of a pattern after any '^', and whether it ends with the anchor '$'.  A character
      followed by '*' is starred, whatever it is. */
  function Items(re: string): (seq<Item>, bool)
    decreases |re|
  {
    if re == [] then ([], false)
    else if |re| > 1 && re[1] == '*' then var (items, end) := Items(re[2..]); ([Many(re[0])] + items, end)
    else if re == "$" then ([], true)
    else var (items, end) := Items(re[1..]); ([One(re[0])] + items, end)
  }

  /** The first j characters of the text are a word of the pattern. */
  predicate Matches(re: string, text: string, j: nat) {
    j <= |text| && InLanguage(Items(re).0, text[..j]) && (Items(re).1 ==> j == |text|)
  }

  /** The whole promise of grep: some substring of the text, at its start for '^' and at its end
      for a final '$', is a word of the pattern. */
  ghost predicate Found(re: string, text: string) {
    if CharAt(re, 0) == '^' then exists j :: Matches(re[1..], text, j)
    else exists i, j :: 0 <= i <= |text| && Matches(re, text[i..], j)
  }

  // ---- How a match of a pattern starts ----

  lemma {:induction false} MatchesOne(re: string, text: string, j: nat)
    requires re != [] && CharAt(re, 1) != '*' && re != "$"
    ensures Matches(re, text, j) <==>
            1 <= j && text != [] && Admits(re[0], text[0]) && Matches(re[1..], text[1..], j - 1)
  {
    var items := Items(re).0;
    assert items[1..] == Items(re[1..]).0;
    if 1 <= j <= |text| {
      assert text[1..][..j - 1] == text[..j][1..];
      if InLanguage(items, text[..j]) {
        var k :| 0 <= k <= j && Denotes(items[0], text[..j][..k]) && InLanguage(items[1..], text[..j][k..]);
        assert k == 1;
      }
      if Admits(re[0], text[0]) { assert text[..j][..1] == [text[0]]; }
    }
  }

  lemma {:induction false} MatchesStar(re: string, text: string, j: nat, k: nat)
    requires |re| > 1 && re[1] == '*' && k <= |text|
    requires forall i :: 0 <= i < k ==> Admits(re[0], text[i])
    requires Matches(re[2..], text[k..], j)
    ensures Matches(re, text, k + j)
  {
    var items, w := Items(re).0, text[..k + j];
    assert items[1..] == Items(re[2..]).0;
    assert w[..k] == text[..k] && w[k..] == text[k..][..j];
    assert Denotes(items[0], w[..k]) && InLanguage(items[1..], w[k..]);
  }

  lemma {:induction false} StarMatches(re: string, text: string, j: nat) returns (k: nat)
    requires |re| > 1 && re[1] == '*' && Matches(re, text, j)
    ensures k <= j && k <= |text| && Matches(re[2..], text[k..], j - k)
    ensures forall i :: 0 <= i < k ==> Admits(re[0], text[i])
  {
    var items, w := Items(re).0, text[..j];
    assert items[1..] == Items(re[2..]).0;
    k :| 0 <= k <= |w| && Denotes(items[0], w[..k]) && InLanguage(items[1..], w[k..]);
    assert w[k..] == text[k..][..j - k];
    assert forall i :: 0 <= i < k ==> w[..k][i] == text[i];
  }

  // ---- The matcher ----

  /** Decides whether the pattern matches at the start of the text. */
  method MatchHere(re: string, text: string) returns (b: bool)
    requires CString(re) && CString(text)
    ensures b <==> exists j :: Matches(re, text, j)
    decreases |re|, 0
  {
    if CharAt(re, 0) == NUL {
      assert Matches(re, text, 0);
      return true;
    }
    if CharAt(re, 1) == '*' {
      b := MatchStar(re[0], re[2..], text);
      if b {
        ghost var k: nat, j: nat :| StarThen(re[0], re[2..], text, k, j);
        MatchesStar(re, text, j, k);
      }
      forall j: nat | Matches(re, text, j) ensures b {
        var k := StarMatches(re, text, j);
        assert StarThen(re[0], re[2..], text, k, j - k);
      }
      return;
    }
    if CharAt(re, 0) == '$' && CharAt(re, 1) == NUL {
      assert re == "$";
      assert Matches(re, text, 0) <==> text == [];
      return CharAt(text, 0) == NUL;
    }
    forall j: nat ensures Matches(re, text, j) <==>
        1 <= j && text != [] && Admits(re[0], text[0]) && Matches(re[1..], text[1..], j - 1) {
      MatchesOne(re, text, j);
    }
    if CharAt(text, 0) != NUL && (CharAt(re, 0) == '.' || CharAt(re, 0) == CharAt(text, 0)) {
      b := MatchHere(re[1..], text[1..]);
      if b {
        ghost var j: nat :| Matches(re[1..], text[1..], j);
        assert Matches(re, text, j + 1);
      }
      return;
    }
    b := false;
  }

  /** k characters that c admits, then j that match re. */
  predicate StarThen(c: char, re: string, text: string, k: nat, j: nat) {
    k <= |text| && (forall i :: 0 <= i < k ==> Admits(c, text[i])) && Matches(re, text[k..], j)
  }

  /** Decides whether c*re matches at the start of the text. */
  method MatchStar(c: char, re: string, text: string) returns (b: bool)
    requires CString(re) && CString(text)
    ensures b <==> exists k: nat, j: nat :: StarThen(c, re, text, k, j)
    decreases |re|, 1
  {
    var t := 0;
    while true
      invariant t <= |text|
      invariant forall i :: 0 <= i < t ==> Admits(c, text[i])
      invariant forall k, j :: 0 <= k < t ==> !Matches(re, text[k..], j)
      decreases |text| - t
    {
      b := MatchHere(re, text[t..]);
      if b {
        ghost var j: nat :| Matches(re, text[t..], j);
        assert StarThen(c, re, text, t, j);
        return;
      }
      if CharAt(text, t) == NUL || !(CharAt(text, t) == c || c == '.') {
        return;
      }
      t := t + 1;
    }
  }

  /** Decides whether the pattern matches anywhere in the text. */
  method Match(re: string, text: string) returns (b: bool)
    requires CString(re) && CString(text)
    ensures b <==> Found(re, text)
  {
    if CharAt(re, 0) == '^' {
      b := MatchHere(re[1..], text);
      return;
    }
    var t := 0;
    while true
      invariant t <= |text|
      invariant forall i, j :: 0 <= i < t ==> !Matches(re, text[i..], j)
      decreases |text| - t
    {
      b := MatchHere(re, text[t..]);
      if b || CharAt(text, t) == NUL {
        return;
      }
      t := t + 1;
    }
  }

  // ---- What patterns find, in plain terms ----

  /** No character with a meaning of its own. */
  predicate PlainText(re: string) { forall k :: 0 <= k < |re| ==> re[k] !in ".*^$" }

  /** A plain pattern matches itself; with a dollar sign behind it, at the end of the text only. */
  lemma {:induction false} PlainMatches(re: string, text: string, j: nat)
    requires PlainText(re)
    ensures Matches(re, text, j) <==> j == |re| && re <= text
    ensures Matches(re + "$", text, j) <==> j == |re| && re == text
    decreases |re|
  {
    hide Matches, PlainText;
    if re == [] {
      EmptyMatches(text, j);
      assert re + "$" == "$";
    } else {
      PlainFirst(re);
      MatchesOne(re, text, j);
      MatchesOne(re + "$", text, j);
      assert (re + "$")[1..] == re[1..] + "$";
      if 1 <= j && text != [] { PlainMatches(re[1..], text[1..], j - 1); }
      assert text != [] && re[0] == text[0] && re[1..] <= text[1..] ==> re <= text;
      assert text != [] && re[0] == text[0] && re[1..] == text[1..] ==> re == text;
    }
  }

  lemma {:induction false} EmptyMatches(text: string, j: nat)
    ensures Matches([], text, j) <==> j == 0
    ensures Matches("$", text, j) <==> j == 0 && text == []
  {
  }

  lemma {:induction false} PlainFirst(re: string)
    requires PlainText(re) && re != []
    ensures PlainText(re[1..]) && CharAt(re, 1) != '*' && CharAt(re + "$", 1) != '*'
    ensures re != "$" && re + "$" != "$" && (forall x :: Admits(re[0], x) <==> re[0] == x)
  {
    assert forall k :: 0 <= k < |re| - 1 ==> re[1..][k] == re[k + 1];
  }

  /** A plain pattern is found where it occurs; ^ asks for the start of the text and $ for its end. */
  lemma {:induction false} PlainFound(re: string, text: string)
    requires PlainText(re)
    ensures Found(re, text) <==> exists i :: 0 <= i <= |text| && re <= text[i..]
    ensures Found("^" + re, text) <==> re <= text
    ensures Found(re + "$", text) <==> exists i :: 0 <= i <= |text| && re == text[i..]
    ensures Found("^" + re + "$", text) <==> re == text
  {
    hide Matches;
    assert ("^" + re)[1..] == re && ("^" + re + "$")[1..] == re + "$";
    assert CharAt(re, 0) != '^' && CharAt(re + "$", 0) != '^';
    forall i, j: nat | 0 <= i <= |text|
      ensures Matches(re, text[i..], j) ==> re <= text[i..]
      ensures Matches(re + "$", text[i..], j) ==> re == text[i..]
    {
      PlainMatches(re, text[i..], j);
    }
    forall i | 0 <= i <= |text|
      ensures re <= text[i..] ==> Matches(re, text[i..], |re|)
      ensures re == text[i..] ==> Matches(re + "$", text[i..], |re|)
    {
      PlainMatches(re, text[i..], |re|);
    }
    AtStart(re, text);
    AtStart(re + "$", text);
  }

  /** With ^ the match is at the start. */
  lemma {:induction false} AtStart(re: string, text: string)
    ensures text[0..] == text && (Found("^" + re, text) <==> exists j :: Matches(re, text[0..], j))
  {
    assert ("^" + re)[1..] == re && text[0..] == text;
  }

  /** A dot admits any one character, a starred character any number of itself, and a starred dot
      anything. */
  lemma {:induction false} SpecialFound(c: char, text: string)
    requires c !in ".*^$"
    ensures Found("^.$", text) <==> |text| == 1
    ensures Found("^" + [c, '*'] + "$", text) <==> forall k :: 0 <= k < |text| ==> text[k] == c
    ensures Found("^.*$", text)
  {
    hide Matches, Found;
    var star := [c, '*', '$'];
    assert "^" + ".$" == "^.$" && "^" + ".*$" == "^.*$" && "^" + star == "^" + [c, '*'] + "$";
    AtStart(".$", text);
    AtStart(".*$", text);
    AtStart(star, text);
    DotOnce(text);
    StarAll(c, star, text);
    StarAll('.', ".*$", text);
    assert forall x :: Admits(c, x) <==> x == c;
    assert Found("^" + star, text) <==> forall k :: 0 <= k < |text| ==> text[k] == c;
    assert Found("^.*$", text);
  }

  lemma {:induction false} DotOnce(text: string)
    ensures (exists j :: Matches(".$", text, j)) <==> |text| == 1
  {
    hide Matches;
    assert ".$"[1..] == "$";
    forall j: nat ensures Matches(".$", text, j) <==> j == 1 && |text| == 1 {
      MatchesOne(".$", text, j);
      if 1 <= j && text != [] { EmptyMatches(text[1..], j - 1); }
    }
    assert |text| == 1 ==> Matches(".$", text, 1);
  }

  lemma {:induction false} StarAll(c: char, re: string, text: string)
    requires re == [c, '*', '$']
    ensures (exists j :: Matches(re, text, j)) <==> forall k :: 0 <= k < |text| ==> Admits(c, text[k])
  {
    hide Matches;
    assert re[2..] == "$";
    if forall k :: 0 <= k < |text| ==> Admits(c, text[k]) {
      EmptyMatches(text[|text|..], 0);
      MatchesStar(re, text, 0, |text|);
    }
    forall j: nat | Matches(re, text, j) ensures forall k :: 0 <= k < |text| ==> Admits(c, text[k]) {
      var k := StarMatches(re, text, j);
      StarEnd(text, j, k);
    }
  }

  lemma {:induction false} StarEnd(text: string, j: nat, k: nat)
    requires k <= j && k <= |text| && Matches("$", text[k..], j - k)
    ensures k == |text|
  {
    EmptyMatches(text[k..], j - k);
  }
}
