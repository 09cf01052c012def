/** The pattern matcher of grep (grep.c), against what patterns mean. Strings are those of C: without '\0'. */
module Grep {
  /** What a pattern is made of: a character, any character, either of them any number of times, the end. */
  datatype Item = One(c: char) | Any | Many(c: char) | ManyAny | End

  /** A star belongs to the character before it; a star at the start, and a $ before the end, is a character. */
  function Items(re: string): seq<Item> {
    if re == "" then []
    else if |re| > 1 && re[1] == '*' then [if re[0] == '.' then ManyAny else Many(re[0])] + Items(re[2..])
    else if re == "$" then [End]
    else [if re[0] == '.' then Any else One(re[0])] + Items(re[1..])
  }

  /** An item stands for the characters a..b of a text. */
  predicate Fits(item: Item, text: string, a: nat, b: nat)
    requires a <= b <= |text|
  {
    match item
    case One(c) => b == a + 1 && text[a] == c
    case Any => b == a + 1
    case Many(c) => forall j :: a <= j < b ==> text[j] == c
    case ManyAny => true
    case End => a == b == |text|
  }

  /** The text starts with what the items stand for, one after the other, divided at cuts. */
  predicate Divides(items: seq<Item>, text: string, cuts: seq<nat>) {
    |cuts| == |items| + 1 && cuts[0] == 0 && forall i :: 0 <= i < |items| ==> Piece(items[i], text, cuts, i)
  }

  predicate Piece(item: Item, text: string, cuts: seq<nat>, i: nat)
    requires i + 1 < |cuts|
  {
    cuts[i] <= cuts[i + 1] <= |text| && Fits(item, text, cuts[i], cuts[i + 1])
  }

  ghost predicate Begins(items: seq<Item>, text: string) {
    exists cuts :: Divides(items, text, cuts)
  }

  /** The meaning of a pattern: the text, or with no ^ a suffix of it, starts with what the items stand for. */
  ghost predicate Means(re: string, text: string) {
    if re != "" && re[0] == '^' then Begins(Items(re[1..]), text)
    else exists k :: 0 <= k <= |text| && Begins(Items(re), text[k..])
  }

  lemma NoItems(text: string)
    ensures Begins([], text)
  {
    assert Divides([], text, [0]);
  }

  /** The first item takes some characters, and the others what follows. */
  lemma FirstItem(item: Item, rest: seq<Item>, text: string, k: nat)
    requires k <= |text| && Fits(item, text, 0, k) && Begins(rest, text[k..])
    ensures Begins([item] + rest, text)
  {
    hide Fits;
    var cuts :| Divides(rest, text[k..], cuts);
    var all := [0] + seq(|cuts|, i requires 0 <= i < |cuts| => cuts[i] + k);
    var items := [item] + rest;
    assert cuts[0] == 0;
    assert forall i :: 0 <= i < |cuts| ==> all[i + 1] == cuts[i] + k;
    forall i | 0 <= i < |items| ensures Piece(items[i], text, all, i) {
      if i > 0 {
        assert Piece(rest[i - 1], text[k..], cuts, i - 1);
        Shift(rest[i - 1], text, k, cuts[i - 1], cuts[i]);
      }
    }
    assert Divides(items, text, all);
  }

  lemma Shift(item: Item, text: string, k: nat, a: nat, b: nat)
    requires k <= |text| && a <= b <= |text| - k
    ensures Fits(item, text[k..], a, b) <==> Fits(item, text, a + k, b + k)
  {
    if item.Many? && Fits(item, text[k..], a, b) {
      forall j | a + k <= j < b + k ensures text[j] == item.c {
        assert text[k..][j - k] == text[j];
      }
    }
  }

  lemma FirstTakes(item: Item, rest: seq<Item>, text: string) returns (k: nat)
    requires Begins([item] + rest, text)
    ensures k <= |text| && Fits(item, text, 0, k) && Begins(rest, text[k..])
  {
    var all :| Divides([item] + rest, text, all);
    k := all[1];
    var items := [item] + rest;
    assert Piece(items[0], text, all, 0);
    Ascending([item] + rest, text, all, |rest| + 1);
    var cuts := seq(|rest| + 1, i requires 0 <= i < |rest| + 1 => if all[i + 1] >= k then all[i + 1] - k else 0);
    forall i | 0 <= i < |rest| ensures Piece(rest[i], text[k..], cuts, i) {
      assert Piece(items[i + 1], text, all, i + 1) && rest[i] == items[i + 1];
      Shift(rest[i], text, k, cuts[i], cuts[i + 1]);
    }
    assert Divides(rest, text[k..], cuts);
  }

  lemma Ascending(items: seq<Item>, text: string, cuts: seq<nat>, n: nat)
    requires Divides(items, text, cuts) && 0 < n <= |items|
    ensures forall i :: 1 <= i <= n ==> cuts[1] <= cuts[i]
  {
    if n > 1 {
      Ascending(items, text, cuts, n - 1);
      assert Piece(items[n - 1], text, cuts, n - 1);
    }
  }

  // ---- The matcher ----

  method Match(re: string, text: string) returns (b: bool)
    ensures b <==> Means(re, text)
  {
    if re != "" && re[0] == '^' {
      b := MatchHere(re[1..], text);
      return;
    }
    var k := 0;
    while true
      invariant 0 <= k <= |text| && forall j :: 0 <= j < k ==> !Begins(Items(re), text[j..])
      decreases |text| - k
    {
      b := MatchHere(re, text[k..]);
      if b {
        return;
      }
      if k == |text| {
        break;
      }
      k := k + 1;
    }
    b := false;
  }

  /** Searches for re at the beginning of text. */
  method MatchHere(re: string, text: string) returns (b: bool)
    ensures b <==> Begins(Items(re), text)
    decreases |re|, 0
  {
    if re == "" {
      NoItems(text);
      return true;
    }
    if |re| > 1 && re[1] == '*' {
      b := MatchStar(re[0], re[2..], text);
      return;
    }
    if re == "$" {
      EndOnly(text);
      return text == "";
    }
    ghost var item := if re[0] == '.' then Any else One(re[0]);
    OneItem(item, Items(re[1..]), text);
    if text != "" && (re[0] == '.' || re[0] == text[0]) {
      b := MatchHere(re[1..], text[1..]);
      return;
    }
    b := false;
  }

  /** Searches for c*re at the beginning of text. */
  method MatchStar(c: char, re: string, text: string) returns (b: bool)
    ensures b <==> Begins([if c == '.' then ManyAny else Many(c)] + Items(re), text)
    decreases |re|, 1
  {
    ghost var item := if c == '.' then ManyAny else Many(c);
    var k := 0;
    while true
      invariant 0 <= k <= |text| && Fits(item, text, 0, k)
      invariant forall j :: 0 <= j < k ==> !Begins(Items(re), text[j..])
      decreases |text| - k
    {
      b := MatchHere(re, text[k..]);
      if b {
        FirstItem(item, Items(re), text, k);
        return;
      }
      if k == |text| || !(text[k] == c || c == '.') {
        break;
      }
      k := k + 1;
    }
    StarFails(item, Items(re), text, k);
    b := false;
  }

  lemma EndOnly(text: string)
    ensures Begins(Items("$"), text) <==> text == ""
  {
    if text == "" {
      assert Divides([End], text, [0, 0]);
    }
    if Begins([End], text) {
      var cuts :| Divides([End], text, cuts);
      assert Piece([End][0], text, cuts, 0);
    }
  }

  lemma OneItem(item: Item, rest: seq<Item>, text: string)
    requires item.One? || item.Any?
    ensures Begins([item] + rest, text) <==> text != "" && Fits(item, text, 0, 1) && Begins(rest, text[1..])
  {
    if text != "" && Fits(item, text, 0, 1) && Begins(rest, text[1..]) {
      FirstItem(item, rest, text, 1);
    }
    if Begins([item] + rest, text) {
      var k := FirstTakes(item, rest, text);
    }
  }

  lemma StarFails(item: Item, rest: seq<Item>, text: string, k: nat)
    requires (item.Many? || item.ManyAny?) && k <= |text|
    requires forall j :: 0 <= j <= k ==> !Begins(rest, text[j..])
    requires k == |text| || (item.Many? && text[k] != item.c)
    ensures !Begins([item] + rest, text)
  {
    if Begins([item] + rest, text) {
      var j := FirstTakes(item, rest, text);
    }
  }
}
