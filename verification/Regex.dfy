/** The regular expressions of grep.c.  Strings carry no terminating NUL: reading
    past the end gives NUL. */
module Regex {

  /** What re[i] reads. */
  function At(s: string, i: nat): char {
    if i < |s| then s[i] else '\0'
  }

  // ---- what a pattern means -----------------------------------------------

  /** A pattern is a row of items, each for one character or for any number of
      equal matches; Items and AtEnd read it with the code's precedence: a star
      binds to whatever precedes it, and '$' is special only when it comes last. */
  datatype Item = One(c: char) | Many(c: char)

  function Items(re: string): (items: seq<Item>)
    ensures |items| <= |re|
  {
    if re == "" then []
    else if At(re, 1) == '*' then [Many(re[0])] + Items(re[2..])
    else if re == "$" then []
    else [One(re[0])] + Items(re[1..])
  }

  predicate AtEnd(re: string) {
    if re == "" then false
    else if At(re, 1) == '*' then AtEnd(re[2..])
    else re == "$" || AtEnd(re[1..])
  }

  predicate Agrees(c: char, x: char) {
    c == '.' || c == x
  }

  /** The words an item stands for. */
  ghost predicate Fits(item: Item, w: string) {
    match item
    case One(c) => |w| == 1 && Agrees(c, w[0])
    case Many(c) => forall k :: 0 <= k < |w| ==> Agrees(c, w[k])
  }

  /** cuts divides a prefix of text into one word per item, and all of text when
      the pattern has to end with it. */
  ghost predicate Divides(cuts: seq<nat>, items: seq<Item>, text: string, atEnd: bool) {
    && |cuts| == |items| + 1 && cuts[0] == 0
    && (forall i :: 0 <= i < |items| ==> Word(cuts, items, text, i))
    && (atEnd ==> cuts[|items|] == |text|)
  }

  ghost predicate Word(cuts: seq<nat>, items: seq<Item>, text: string, i: nat)
    requires i < |items| == |cuts| - 1
  {
    cuts[i] <= cuts[i + 1] <= |text| && Fits(items[i], text[cuts[i]..cuts[i + 1]])
  }

  ghost predicate Parts(items: seq<Item>, text: string, atEnd: bool) {
    exists cuts :: Divides(cuts, items, text, atEnd)
  }

  /** re matches at the beginning of text. */
  ghost predicate Here(re: string, text: string) {
    Parts(Items(re), text, AtEnd(re))
  }

  /** re matches text: at its beginning after a '^', anywhere otherwise. */
  ghost predicate Matches(re: string, text: string) {
    if At(re, 0) == '^' then Here(re[1..], text)
    else exists i :: 0 <= i <= |text| && Here(re, text[i..])
  }

  // ---- taking off the first item ------------------------------------------

  /** A row of items matches exactly when its first item takes some prefix and
      the others match what is left. */
  lemma FirstItem(item: Item, rest: seq<Item>, text: string, atEnd: bool)
    ensures Parts([item] + rest, text, atEnd) <==>
            exists n :: 0 <= n <= |text| && Fits(item, text[..n]) && Parts(rest, text[n..], atEnd)
  {
    var all := [item] + rest;
    if Parts(all, text, atEnd) {
      var cuts :| Divides(cuts, all, text, atEnd);
      DropFirst(cuts, item, rest, text, atEnd);
    }
    if n :| 0 <= n <= |text| && Fits(item, text[..n]) && Parts(rest, text[n..], atEnd) {
      var cuts :| Divides(cuts, rest, text[n..], atEnd);
      PutFirst(cuts, n, item, rest, text, atEnd);
    }
  }

  lemma DropFirst(cuts: seq<nat>, item: Item, rest: seq<Item>, text: string, atEnd: bool)
    requires Divides(cuts, [item] + rest, text, atEnd)
    ensures var n := cuts[1]; n <= |text| && Fits(item, text[..n]) && Parts(rest, text[n..], atEnd)
  {
    var all, n := [item] + rest, cuts[1];
    assert Word(cuts, all, text, 0) && all[0] == item;
    assert text[..n] == text[cuts[0]..cuts[1]];
    Increasing(cuts, all, text, atEnd);
    var left := seq(|rest| + 1, i requires 0 <= i <= |rest| => cuts[i + 1] - n);
    forall i | 0 <= i < |rest| ensures Word(left, rest, text[n..], i) {
      assert Word(cuts, all, text, i + 1) && all[i + 1] == rest[i];
      assert left[i] == cuts[i + 1] - n && left[i + 1] == cuts[i + 2] - n;
      SliceOfRest(text, n, left[i], left[i + 1]);
    }
    assert Divides(left, rest, text[n..], atEnd);
  }

  lemma SliceOfRest(text: string, n: nat, a: nat, b: nat)
    requires a <= b && n + b <= |text|
    ensures text[n..][a..b] == text[n + a..n + b]
  {
  }

  lemma Increasing(cuts: seq<nat>, items: seq<Item>, text: string, atEnd: bool)
    requires Divides(cuts, items, text, atEnd) && |items| > 0
    ensures forall i :: 1 <= i <= |items| ==> cuts[1] <= cuts[i]
  {
    var k := 1;
    while k < |items|
      invariant 1 <= k <= |items|
      invariant forall i :: 1 <= i <= k ==> cuts[1] <= cuts[i]
    {
      assert Word(cuts, items, text, k);
      k := k + 1;
    }
  }

  lemma PutFirst(left: seq<nat>, n: nat, item: Item, rest: seq<Item>, text: string, atEnd: bool)
    requires n <= |text| && Fits(item, text[..n]) && Divides(left, rest, text[n..], atEnd)
    ensures Parts([item] + rest, text, atEnd)
  {
    var all := [item] + rest;
    var cuts := [0] + seq(|left|, i requires 0 <= i < |left| => left[i] + n);
    forall i | 0 <= i < |all| ensures Word(cuts, all, text, i) {
      if i == 0 {
        assert text[cuts[0]..cuts[1]] == text[..n];
      } else {
        assert Word(left, rest, text[n..], i - 1) && all[i] == rest[i - 1];
        assert cuts[i] == left[i - 1] + n && cuts[i + 1] == left[i] + n;
        SliceOfRest(text, n, left[i - 1], left[i]);
      }
    }
    assert Divides(cuts, all, text, atEnd);
  }

  /** The empty row matches the empty prefix. */
  lemma NoItems(text: string, atEnd: bool)
    ensures Parts([], text, atEnd) <==> (atEnd ==> text == "")
  {
    if atEnd ==> text == "" {
      assert Divides([0], [], text, atEnd);
    }
  }

  /** Pattern, one character less of text. */
  lemma FirstOne(c: char, rest: seq<Item>, text: string, atEnd: bool)
    ensures Parts([One(c)] + rest, text, atEnd) <==>
            text != "" && Agrees(c, text[0]) && Parts(rest, text[1..], atEnd)
  {
    FirstItem(One(c), rest, text, atEnd);
    if text != "" {
      assert text[..1][0] == text[0];
    }
  }

  // ---- the matcher --------------------------------------------------------

  /** match: the regular expression anywhere in text, by sliding along it. */
  method Match(re: string, text: string) returns (found: bool)
    ensures found <==> Matches(re, text)
  {
    if At(re, 0) == '^' {
      found := MatchHere(re[1..], text);
      return;
    }
    var i := 0;
    while true
      invariant 0 <= i <= |text|
      invariant forall k :: 0 <= k < i ==> !Here(re, text[k..])
      decreases |text| - i
    {
      var here := MatchHere(re, text[i..]);
      if here {
        return true;
      }
      if i == |text| {
        return false;
      }
      i := i + 1;
    }
  }

  /** matchhere: the regular expression at the beginning of text. */
  method MatchHere(re: string, text: string) returns (found: bool)
    ensures found <==> Here(re, text)
    decreases |re|, 0
  {
    NoItems(text, AtEnd(re));
    if re == "" {
      return true;
    }
    if At(re, 1) == '*' {
      found := MatchStar(re[0], re[2..], text);
      return;
    }
    if re == "$" {
      return text == "";
    }
    FirstOne(re[0], Items(re[1..]), text, AtEnd(re));
    if text != "" && (re[0] == '.' || re[0] == text[0]) {
      found := MatchHere(re[1..], text[1..]);
      return;
    }
    return false;
  }

  /** matchstar: c*re at the beginning of text, the shortest run of c first. */
  method MatchStar(c: char, re: string, text: string) returns (found: bool)
    ensures found <==> Parts([Many(c)] + Items(re), text, AtEnd(re))
    decreases |re|, 1
  {
    FirstItem(Many(c), Items(re), text, AtEnd(re));
    var i := 0;
    while true
      invariant 0 <= i <= |text|
      invariant Fits(Many(c), text[..i])
      invariant forall n :: 0 <= n < i ==> !Here(re, text[n..])
      decreases |text| - i
    {
      var here := MatchHere(re, text[i..]);
      if here {
        return true;
      }
      if i == |text| || !(text[i] == c || c == '.') {
        forall n | i < n <= |text| ensures !Fits(Many(c), text[..n]) {
          assert text[..n][i] == text[i];
        }
        return false;
      }
      i := i + 1;
    }
  }

  // ---- what the meaning amounts to ----------------------------------------

  ghost predicate Plain(re: string) {
    forall i :: 0 <= i < |re| ==> re[i] != '.' && re[i] != '*' && re[i] != '^' && re[i] != '$'
  }

  lemma {:induction false} PlainHere(re: string, text: string)
    requires Plain(re)
    ensures Here(re, text) <==> re <= text
  {
    if re == "" {
      NoItems(text, false);
    } else {
      assert At(re, 1) != '*';
      assert re[0] != '$';
      FirstOne(re[0], Items(re[1..]), text, AtEnd(re));
      if text != "" {
        PlainHere(re[1..], text[1..]);
        assert re == [re[0]] + re[1..] && text == [text[0]] + text[1..];
      }
    }
  }

  /** A pattern without special characters is searched for as a substring. */
  lemma PlainIsSubstring(re: string, text: string)
    requires Plain(re)
    ensures Matches(re, text) <==> exists i :: 0 <= i <= |text| && re <= text[i..]
  {
    forall i | 0 <= i <= |text| ensures Here(re, text[i..]) <==> re <= text[i..] {
      PlainHere(re, text[i..]);
    }
    assert At(re, 0) != '^';
    if i :| 0 <= i <= |text| && re <= text[i..] {
      assert Here(re, text[i..]);
    }
    if j :| 0 <= j <= |text| && Here(re, text[j..]) {
      assert re <= text[j..];
    }
  }

  /** Between '^' and '$' a plain pattern matches only itself. */
  lemma PlainAnchored(re: string, text: string)
    requires Plain(re)
    ensures Matches("^" + re + "$", text) <==> text == re
  {
    var all := "^" + re + "$";
    assert all[1..] == re + "$";
    PlainEnd(re, text);
  }

  lemma {:induction false} PlainEnd(re: string, text: string)
    requires Plain(re)
    ensures Here(re + "$", text) <==> text == re
  {
    var all := re + "$";
    if re == "" {
      assert all == "$";
      NoItems(text, true);
    } else {
      assert all[0] == re[0] && At(all, 1) != '*' && all != "$";
      assert all[1..] == re[1..] + "$";
      FirstOne(re[0], Items(re[1..] + "$"), text, AtEnd(all));
      if text != "" {
        PlainEnd(re[1..], text[1..]);
        assert re == [re[0]] + re[1..] && text == [text[0]] + text[1..];
      }
    }
  }
}
