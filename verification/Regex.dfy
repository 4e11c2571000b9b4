/** The pattern matcher of grep (user/grep.c): ^ . * $ over strings without NUL. */
module Regex {
  import opened Bytes

  const CARET: byte := 94
  const DOLLAR: byte := 36
  const STAR: byte := 42
  const DOT: byte := 46

  // what a pattern means

  datatype Item = One(c: byte) | Many(c: byte)

  /** Anchored at the start, the items in order, anchored at the end. */
  datatype Pattern = Pattern(atStart: bool, items: seq<Item>, atEnd: bool)

  predicate Fits(c: byte, x: byte) {
    c == DOT || c == x
  }

  /** A piece of text that one item stands for. */
  predicate PieceOk(it: Item, s: seq<byte>) {
    match it
    case One(c) => |s| == 1 && Fits(c, s[0])
    case Many(c) => forall k :: 0 <= k < |s| ==> Fits(c, s[k])
  }

  function Concat(pieces: seq<seq<byte>>): seq<byte> {
    if pieces == [] then [] else pieces[0] + Concat(pieces[1..])
  }

  /** s can be cut into one piece for each item. */
  ghost predicate Splits(items: seq<Item>, s: seq<byte>) {
    exists pieces :: Cut(items, pieces, s)
  }

  ghost predicate Cut(items: seq<Item>, pieces: seq<seq<byte>>, s: seq<byte>) {
    |pieces| == |items| && Concat(pieces) == s && forall k :: 0 <= k < |items| ==> PieceOk(items[k], pieces[k])
  }

  /** The substring from i to j is what the items stand for, where the anchors allow. */
  ghost predicate Spans(p: Pattern, text: seq<byte>, i: nat, j: nat) {
    && i <= j <= |text| && (p.atStart ==> i == 0) && (p.atEnd ==> j == |text|)
    && Splits(p.items, text[i..j])
  }

  ghost predicate Denotes(p: Pattern, text: seq<byte>) {
    exists i: nat, j: nat :: Spans(p, text, i, j)
  }

  // patterns as written

  function ParseItems(re: seq<byte>): (seq<Item>, bool) {
    if re == [] then ([], false)
    else if |re| >= 2 && re[1] == STAR then
      var (items, e) := ParseItems(re[2..]);
      ([Many(re[0])] + items, e)
    else if re == [DOLLAR] then ([], true)
    else
      var (items, e) := ParseItems(re[1..]);
      ([One(re[0])] + items, e)
  }

  function Parse(re: seq<byte>): Pattern {
    if re != [] && re[0] == CARET then Pattern(true, ParseItems(re[1..]).0, ParseItems(re[1..]).1)
    else Pattern(false, ParseItems(re).0, ParseItems(re).1)
  }

  // splitting off the first piece

  lemma SplitsNone(s: seq<byte>)
    ensures Splits([], s) <==> s == []
  {
    if s == [] {
      assert Cut([], [], s);
    }
    if Splits([], s) {
      var pieces :| Cut([], pieces, s);
    }
  }

  lemma SplitsFirst(it: Item, items: seq<Item>, s: seq<byte>, k: nat)
    requires k <= |s| && PieceOk(it, s[..k]) && Splits(items, s[k..])
    ensures Splits([it] + items, s)
  {
    var pieces :| Cut(items, pieces, s[k..]);
    var all := [s[..k]] + pieces;
    assert all[1..] == pieces;
    assert Concat(all) == s[..k] + s[k..] == s;
    assert Cut([it] + items, all, s);
  }

  lemma FirstPiece(it: Item, items: seq<Item>, s: seq<byte>) returns (k: nat)
    requires Splits([it] + items, s)
    ensures k <= |s| && PieceOk(it, s[..k]) && Splits(items, s[k..])
  {
    var all :| Cut([it] + items, all, s);
    k := |all[0]|;
    assert s == all[0] + Concat(all[1..]);
    assert s[..k] == all[0] && s[k..] == Concat(all[1..]);
    assert ([it] + items)[0] == it;
    forall j | 0 <= j < |items|
      ensures PieceOk(items[j], all[1..][j])
    {
      assert ([it] + items)[j + 1] == items[j];
    }
    assert Cut(items, all[1..], s[k..]);
  }

  // the matcher

  /** matchhere: the pattern matches at the start of the text. */
  predicate Here(re: seq<byte>, text: seq<byte>)
    decreases |re|, |text|, 1
  {
    if re == [] then true
    else if |re| >= 2 && re[1] == STAR then StarHere(re[0], re[2..], text)
    else if re == [DOLLAR] then text == []
    else text != [] && Fits(re[0], text[0]) && Here(re[1..], text[1..])
  }

  /** matchstar. */
  predicate StarHere(c: byte, re: seq<byte>, text: seq<byte>)
    decreases |re| + 1, |text|, 0
  {
    Here(re, text) || (text != [] && Fits(c, text[0]) && StarHere(c, re, text[1..]))
  }

  /** match. */
  predicate Anywhere(re: seq<byte>, text: seq<byte>) {
    Here(re, text) || (text != [] && Anywhere(re, text[1..]))
  }

  predicate Matches(re: seq<byte>, text: seq<byte>) {
    if re != [] && re[0] == CARET then Here(re[1..], text) else Anywhere(re, text)
  }

  method MatchHere(re: seq<byte>, text: seq<byte>) returns (r: bool)
    ensures r == Here(re, text)
    decreases |re|, |text|, 1
  {
    if re == [] {
      return true;
    }
    if |re| >= 2 && re[1] == STAR {
      r := MatchStar(re[0], re[2..], text);
      return;
    }
    if re == [DOLLAR] {
      return text == [];
    }
    if text != [] && (re[0] == DOT || re[0] == text[0]) {
      r := MatchHere(re[1..], text[1..]);
      return;
    }
    return false;
  }

  method MatchStar(c: byte, re: seq<byte>, text: seq<byte>) returns (r: bool)
    ensures r == StarHere(c, re, text)
    decreases |re| + 1, |text|, 0
  {
    var t := 0;
    while true
      invariant 0 <= t <= |text| && StarHere(c, re, text) == StarHere(c, re, text[t..])
      decreases |text| - t
    {
      r := MatchHere(re, text[t..]);
      if r {
        return;
      }
      if t == |text| || !(text[t] == c || c == DOT) {
        return false;
      }
      assert text[t..][1..] == text[t + 1..];
      t := t + 1;
    }
  }

  method Match(re: seq<byte>, text: seq<byte>) returns (r: bool)
    ensures r == Matches(re, text)
  {
    if re != [] && re[0] == CARET {
      r := MatchHere(re[1..], text);
      return;
    }
    var t := 0;
    while true
      invariant 0 <= t <= |text| && Anywhere(re, text) == Anywhere(re, text[t..])
      decreases |text| - t
    {
      r := MatchHere(re, text[t..]);
      if r {
        return;
      }
      if t == |text| {
        return false;
      }
      assert text[t..][1..] == text[t + 1..];
      t := t + 1;
    }
  }

  // the matcher means what the pattern means

  /** Items from the start of the text, up to its end if anchored there. */
  ghost predicate Prefix(items: seq<Item>, e: bool, text: seq<byte>) {
    exists j: nat :: j <= |text| && (e ==> j == |text|) && Splits(items, text[..j])
  }

  lemma PrefixFirst(it: Item, items: seq<Item>, e: bool, text: seq<byte>, k: nat)
    requires k <= |text| && PieceOk(it, text[..k]) && Prefix(items, e, text[k..])
    ensures Prefix([it] + items, e, text)
  {
    var j: nat :| j <= |text[k..]| && (e ==> j == |text[k..]|) && Splits(items, text[k..][..j]);
    var s := text[..k + j];
    assert s[..k] == text[..k] && s[k..] == text[k..][..j];
    SplitsFirst(it, items, s, k);
  }

  lemma PrefixRest(it: Item, items: seq<Item>, e: bool, text: seq<byte>) returns (k: nat)
    requires Prefix([it] + items, e, text)
    ensures k <= |text| && PieceOk(it, text[..k]) && Prefix(items, e, text[k..])
  {
    var j: nat :| j <= |text| && (e ==> j == |text|) && Splits([it] + items, text[..j]);
    k := FirstPiece(it, items, text[..j]);
    assert text[..j][..k] == text[..k] && text[..j][k..] == text[k..][..j - k];
  }

  lemma {:induction false} HereMeans(re: seq<byte>, text: seq<byte>)
    ensures Here(re, text) <==> Prefix(ParseItems(re).0, ParseItems(re).1, text)
    decreases |re|, |text|, 1
  {
    var (items, e) := ParseItems(re);
    if re == [] {
      SplitsNone(text[..0]);
    } else if |re| >= 2 && re[1] == STAR {
      StarMeans(re[0], re[2..], text);
    } else if re == [DOLLAR] {
      SplitsNone(text);
      assert text[..|text|] == text;
    } else {
      OneMeans(re, text);
    }
  }

  lemma {:induction false} OneMeans(re: seq<byte>, text: seq<byte>)
    requires re != [] && !(|re| >= 2 && re[1] == STAR) && re != [DOLLAR]
    ensures Here(re, text) <==> Prefix(ParseItems(re).0, ParseItems(re).1, text)
    decreases |re|, |text|, 0
  {
    var (items, e) := ParseItems(re[1..]);
    if text != [] && Fits(re[0], text[0]) {
      HereMeans(re[1..], text[1..]);
      if Here(re[1..], text[1..]) {
        PrefixFirst(One(re[0]), items, e, text, 1);
      }
    }
    if Prefix([One(re[0])] + items, e, text) {
      var k := PrefixRest(One(re[0]), items, e, text);
      HereMeans(re[1..], text[1..]);
    }
  }

  lemma {:induction false} StarMeans(c: byte, re: seq<byte>, text: seq<byte>)
    ensures StarHere(c, re, text) <==> Prefix([Many(c)] + ParseItems(re).0, ParseItems(re).1, text)
    decreases |re| + 1, |text|, 0
  {
    var (items, e) := ParseItems(re);
    HereMeans(re, text);
    if Here(re, text) {
      assert text[0..] == text;
      PrefixFirst(Many(c), items, e, text, 0);
    }
    if text != [] && Fits(c, text[0]) {
      StarMeans(c, re, text[1..]);
      if StarHere(c, re, text[1..]) {
        var k := PrefixRest(Many(c), items, e, text[1..]);
        assert text[1..][..k] == text[1..k + 1] && text[1..][k..] == text[k + 1..];
        assert text[..k + 1] == [text[0]] + text[1..k + 1];
        PrefixFirst(Many(c), items, e, text, k + 1);
      }
    }
    if Prefix([Many(c)] + items, e, text) {
      var k := PrefixRest(Many(c), items, e, text);
      if k == 0 {
        assert text[0..] == text;
      } else {
        assert text[..k][0] == text[0];
        assert text[1..][..k - 1] == text[..k][1..] && text[1..][k - 1..] == text[k..];
        PrefixFirst(Many(c), items, e, text[1..], k - 1);
      }
    }
  }

  lemma {:induction false} AnywhereMeans(re: seq<byte>, text: seq<byte>)
    ensures Anywhere(re, text) <==> exists i: nat :: i <= |text| && Here(re, text[i..])
  {
    assert text[0..] == text;
    if text != [] {
      AnywhereMeans(re, text[1..]);
      if i: nat :| i <= |text| && Here(re, text[i..]) {
        if i > 0 {
          assert text[1..][i - 1..] == text[i..];
        }
      }
      if i: nat :| i <= |text[1..]| && Here(re, text[1..][i..]) {
        assert text[1..][i..] == text[i + 1..];
      }
    }
  }

  /** match finds a text iff some substring of it splits as the pattern says. */
  lemma MatchesMeans(re: seq<byte>, text: seq<byte>)
    ensures Matches(re, text) <==> Denotes(Parse(re), text)
  {
    hide Splits, Here, Anywhere;
    var p := Parse(re);
    if re != [] && re[0] == CARET {
      HereMeans(re[1..], text);
      PrefixIsSpan(p, text, 0);
    } else {
      AnywhereMeans(re, text);
      forall i: nat | i <= |text|
        ensures Here(re, text[i..]) <==> exists j: nat :: Spans(p, text, i, j)
      {
        HereMeans(re, text[i..]);
        PrefixIsSpan(p, text, i);
      }
      if Anywhere(re, text) {
        var i: nat :| i <= |text| && Here(re, text[i..]);
        var j: nat :| Spans(p, text, i, j);
      }
      if i: nat, j: nat :| Spans(p, text, i, j) {
        assert i <= |text| && Here(re, text[i..]);
      }
    }
  }

  lemma PrefixIsSpan(p: Pattern, text: seq<byte>, i: nat)
    requires i <= |text| && (p.atStart ==> i == 0)
    ensures Prefix(p.items, p.atEnd, text[i..]) <==> exists j: nat :: Spans(p, text, i, j)
  {
    hide Splits;
    if j: nat :| j <= |text[i..]| && (p.atEnd ==> j == |text[i..]|) && Splits(p.items, text[i..][..j]) {
      assert text[i..][..j] == text[i..i + j];
      assert Spans(p, text, i, i + j);
    }
    if j: nat :| Spans(p, text, i, j) {
      assert text[i..][..j - i] == text[i..j];
    }
  }
}
