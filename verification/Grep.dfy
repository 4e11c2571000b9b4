/** grep's line buffering (user/grep.c): whatever pieces read delivers, the output is the lines
    that match. */
module Grep {
  import opened Bytes
  import opened Regex

  const NEWLINE: byte := 10
  const SIZE: nat := 1024

  /** The position of the first newline, or the length. */
  function LineEnd(s: seq<byte>): (k: nat)
    ensures k <= |s| && NEWLINE !in s[..k] && (k < |s| ==> s[k] == NEWLINE)
  {
    if s == [] || s[0] == NEWLINE then 0 else 1 + LineEnd(s[1..])
  }

  /** The newline-terminated lines of s that match, with their newlines. */
  function Selected(re: seq<byte>, s: seq<byte>): seq<byte>
    decreases |s|
  {
    var k := LineEnd(s);
    if k == |s| then []
    else (if Matches(re, s[..k]) then s[..k + 1] else []) + Selected(re, s[k + 1..])
  }

  /** What grep prints: the same, up to the first line that does not fit the buffer. */
  function Printed(re: seq<byte>, s: seq<byte>): seq<byte>
    decreases |s|
  {
    var k := LineEnd(s);
    if k == |s| || k + 1 >= SIZE then []
    else (if Matches(re, s[..k]) then s[..k + 1] else []) + Printed(re, s[k + 1..])
  }

  /** The input from the first line on that does not fit. */
  function Unread(s: seq<byte>): seq<byte>
    decreases |s|
  {
    var k := LineEnd(s);
    if k == |s| || k + 1 >= SIZE then s else Unread(s[k + 1..])
  }

  /** grep prints all lines that match iff none of them comes after a line that does not fit. */
  lemma {:induction false} PrintedIsSelected(re: seq<byte>, s: seq<byte>)
    ensures Selected(re, s) == Printed(re, s) + Selected(re, Unread(s))
    ensures Printed(re, s) == Selected(re, s) <==> Selected(re, Unread(s)) == []
    decreases |s|
  {
    hide Matches;
    var k := LineEnd(s);
    if k < |s| && k + 1 < SIZE {
      PrintedIsSelected(re, s[k + 1..]);
      var rest := s[k + 1..];
      Regroup(if Matches(re, s[..k]) then s[..k + 1] else [], Printed(re, rest), Selected(re, Unread(rest)));
    }
    AllIffNoneLeft(Selected(re, s), Printed(re, s), Selected(re, Unread(s)));
  }

  lemma Regroup(a: seq<byte>, b: seq<byte>, c: seq<byte>)
    ensures a + (b + c) == (a + b) + c
  {
  }

  lemma AllIffNoneLeft(all: seq<byte>, shown: seq<byte>, left: seq<byte>)
    requires all == shown + left
    ensures shown == all <==> left == []
  {
    assert |all| == |shown| + |left|;
  }

  /** Every newline-terminated line fits the buffer, newline included. */
  predicate LinesFit(s: seq<byte>)
    decreases |s|
  {
    var k := LineEnd(s);
    k == |s| || (k + 1 < SIZE && LinesFit(s[k + 1..]))
  }

  lemma {:induction false} FittingLinesArePrinted(re: seq<byte>, s: seq<byte>)
    requires LinesFit(s)
    ensures Printed(re, s) == Selected(re, s)
    decreases |s|
  {
    hide Matches;
    var k := LineEnd(s);
    if k < |s| {
      FittingLinesArePrinted(re, s[k + 1..]);
    }
  }

  /** A line of 1023 characters with its newline is lost, although it matches. */
  lemma LongLineIsLost()
    ensures var s := seq(SIZE - 1, i => 120) + [NEWLINE]; Printed([], s) != Selected([], s)
  {
    var s := seq(SIZE - 1, i => 120) + [NEWLINE];
    LineEndAt(s, SIZE - 1);
    assert Matches([], s[..SIZE - 1]);
  }

  // input that contains NULs

  /** The input up to its first NUL: all that strchr and match ever get to see. */
  function Text(s: seq<byte>): (t: seq<byte>)
    ensures |t| <= |s| && t == s[..|t|] && 0 !in t && (|t| < |s| ==> s[|t|] == 0)
  {
    if s == [] || s[0] == 0 then [] else [s[0]] + Text(s[1..])
  }

  lemma TextAt(s: seq<byte>, k: nat)
    requires k <= |s| && 0 !in s[..k] && (k < |s| ==> s[k] == 0)
    ensures Text(s) == s[..k]
  {
    var t := Text(s);
    assert forall j :: 0 <= j < k ==> s[..k][j] == s[j];
    assert forall j :: 0 <= j < |t| ==> t[j] == s[j];
  }

  lemma TextAppend(a: seq<byte>, b: seq<byte>)
    requires 0 !in a
    ensures Text(a + b) == a + Text(b)
  {
    var k := |a| + |Text(b)|;
    assert (a + b)[..k] == a + Text(b);
    TextAt(a + b, k);
  }

  /** What grep prints of any input. */
  function Shown(re: seq<byte>, s: seq<byte>): seq<byte> {
    Printed(re, Text(s))
  }

  /** The input from the first line on that does not fit or holds a NUL. */
  function Dropped(s: seq<byte>): seq<byte>
    decreases |s|
  {
    var k := LineEnd(s);
    if k == |s| || k + 1 >= SIZE || 0 in s[..k] then s else Dropped(s[k + 1..])
  }

  /** Of any input, grep prints the lines that match up to the first one that does not fit or holds a
      NUL; so it prints all of them iff none matches from there on. */
  lemma ShownIsSelected(re: seq<byte>, s: seq<byte>)
    ensures Selected(re, s) == Shown(re, s) + Selected(re, Dropped(s))
    ensures Shown(re, s) == Selected(re, s) <==> Selected(re, Dropped(s)) == []
  {
    hide Shown, Selected, Dropped;
    ShownThenDropped(re, s);
    AllIffNoneLeft(Selected(re, s), Shown(re, s), Selected(re, Dropped(s)));
  }

  lemma {:induction false} ShownThenDropped(re: seq<byte>, s: seq<byte>)
    ensures Selected(re, s) == Shown(re, s) + Selected(re, Dropped(s))
    decreases |s|
  {
    hide Matches, Shown, Text;
    var k := LineEnd(s);
    if k == |s| || k + 1 >= SIZE || 0 in s[..k] {
      NothingShown(re, s);
    } else {
      var rest := s[k + 1..];
      ShownThenDropped(re, rest);
      LineShown(re, s[..k], rest);
      assert s == s[..k] + [NEWLINE] + rest && s[..k + 1] == s[..k] + [NEWLINE];
      Regroup(if Matches(re, s[..k]) then s[..k + 1] else [], Shown(re, rest), Selected(re, Dropped(rest)));
    }
  }

  lemma NothingShown(re: seq<byte>, s: seq<byte>)
    requires var k := LineEnd(s); k == |s| || k + 1 >= SIZE || 0 in s[..k]
    ensures Shown(re, s) == []
  {
    hide Shown;
    var k := LineEnd(s);
    var line, rest := s[..k], s[k..];
    assert s == line + rest;
    LineNotShown(re, line, rest);
  }

  lemma LineNotShown(re: seq<byte>, line: seq<byte>, rest: seq<byte>)
    requires NEWLINE !in line && (rest == [] || |line| + 1 >= SIZE || 0 in line)
    ensures Shown(re, line + rest) == []
  {
    hide Shown, Printed, Matches;
    if 0 in line {
      NulStops(re, line, rest);
    } else {
      TextAll(line);
      LastText(re, line, rest);
    }
  }

  lemma NulStops(re: seq<byte>, line: seq<byte>, rest: seq<byte>)
    requires NEWLINE !in line && 0 in line
    ensures Shown(re, line + rest) == []
  {
    hide Printed, Matches;
    TextStops(line, rest);
    var t := Text(line);
    assert t + [] == t;
    hide Text;
    NoLine(re, t, []);
  }

  lemma LineShown(re: seq<byte>, line: seq<byte>, rest: seq<byte>)
    requires NEWLINE !in line && 0 !in line && |line| + 1 < SIZE
    ensures Shown(re, line + [NEWLINE] + rest) == (if Matches(re, line) then line + [NEWLINE] else []) + Shown(re, rest)
  {
    hide Matches, Printed, Text;
    TextAppend(line + [NEWLINE], rest);
    PrintedLine(re, line, Text(rest));
  }

  /** A line that holds a NUL is lost, although it matches. */
  lemma NulLineIsLost()
    ensures var s := [0, NEWLINE]; Shown([], s) != Selected([], s)
  {
    var s := [0, NEWLINE];
    LineEndAt(s, 1);
    assert s[..1] == [0] && Matches([], [0]);
    NothingShown([], s);
  }

  lemma LineEndAt(s: seq<byte>, k: nat)
    requires k <= |s| && NEWLINE !in s[..k] && (k < |s| ==> s[k] == NEWLINE)
    ensures LineEnd(s) == k
  {
    assert forall j :: 0 <= j < k ==> s[..k][j] == s[j];
    assert forall j :: 0 <= j < LineEnd(s) ==> s[..LineEnd(s)][j] == s[j];
  }

  lemma PrintedLine(re: seq<byte>, line: seq<byte>, rest: seq<byte>)
    requires NEWLINE !in line && |line| + 1 < SIZE
    ensures Printed(re, line + [NEWLINE] + rest) == (if Matches(re, line) then line + [NEWLINE]
              else []) + Printed(re, rest)
  {
    var s := line + [NEWLINE] + rest;
    assert s[..|line|] == line && s[..|line| + 1] == line + [NEWLINE] && s[|line| + 1..] == rest;
    LineEndAt(s, |line|);
  }

  /** Text without newline prints nothing; nor does a full buffer without newline. */
  lemma LastText(re: seq<byte>, tail: seq<byte>, rest: seq<byte>)
    requires NEWLINE !in Text(tail) && (rest == [] || |tail| + 1 >= SIZE)
    ensures Shown(re, tail + rest) == []
  {
    hide Printed, Text, Matches;
    if 0 in tail {
      TextStops(tail, rest);
      NoLine(re, Text(tail), []);
      assert Text(tail) + [] == Text(tail);
    } else {
      TextAppend(tail, rest);
      TextAll(tail);
      TextAll([]);
      NoLine(re, tail, Text(rest));
    }
  }

  lemma TextStops(a: seq<byte>, b: seq<byte>)
    requires 0 in a
    ensures Text(a + b) == Text(a)
  {
    var k := |Text(a)|;
    assert Text(a) != a;
    assert (a + b)[..k] == a[..k];
    TextAt(a + b, k);
  }

  lemma TextAll(s: seq<byte>)
    requires 0 !in s
    ensures Text(s) == s
  {
    assert s[..|s|] == s;
    TextAt(s, |s|);
  }

  lemma NoLine(re: seq<byte>, tail: seq<byte>, rest: seq<byte>)
    requires NEWLINE !in tail && (rest == [] || |tail| + 1 >= SIZE)
    ensures Printed(re, tail + rest) == []
  {
    var s := tail + rest;
    assert forall j :: 0 <= j < |tail| ==> s[j] == tail[j];
    assert rest == [] ==> s == tail;
  }

  /** strchr(p, newline) in a buffer with a NUL at m; -1 if there is none before the first NUL. */
  method Strchr(buf: array<byte>, p: nat, ghost m: nat) returns (q: int)
    requires p <= m < buf.Length && buf[m] == 0
    ensures q == -1 ==> NEWLINE !in Text(buf[p..m])
    ensures q != -1 ==> p <= q < m && buf[q] == NEWLINE && NEWLINE !in buf[p..q] && 0 !in buf[p..q]
  {
    q := p;
    while buf[q] != 0
      invariant p <= q <= m && NEWLINE !in buf[p..q] && 0 !in buf[p..q]
      decreases m - q
    {
      if buf[q] == NEWLINE {
        return;
      }
      assert buf[p..q + 1] == buf[p..q] + [buf[q]];
      q := q + 1;
    }
    assert buf[p..m][..q - p] == buf[p..q];
    TextAt(buf[p..m], q - p);
    q := -1;
  }

  /** What read may deliver: any number of bytes, but some if there is input and room. */
  method Read(room: nat, left: nat) returns (n: nat)
    ensures n <= room && n <= left && (n == 0 ==> room == 0 || left == 0)
  {
    var most := if room < left then room else left;
    n :| n <= most && (n == 0 ==> most == 0);
  }

  /** The inner loop of grep: print the matching lines in the buffer; p is where the rest begins. */
  method PrintLines(re: seq<byte>, buf: array<byte>, m: nat, ghost rest: seq<byte>, ghost all: seq<byte>,
                    before: seq<byte>)
    returns (p: nat, out: seq<byte>)
    requires m < buf.Length == SIZE && buf[m] == 0 && before + Shown(re, buf[..m] + rest) == all
    modifies buf
    ensures p <= m && NEWLINE !in Text(buf[p..m]) && buf[p..m] == old(buf[p..m])
    ensures out + Shown(re, buf[p..m] + rest) == all
  {
    hide Shown, Matches, Text;
    p, out := 0, before;
    assert buf[0..m] == buf[..m];
    ghost var text := buf[..m];
    while true
      invariant p <= m && buf[m] == 0 && buf[p..m] == text[p..]
      invariant out + Shown(re, text[p..] + rest) == all
      decreases m - p
    {
      var q := Strchr(buf, p, m);
      if q == -1 {
        break;
      }
      SameText(buf[..], text, p, q, m);
      NextLine(re, text, p, q, rest, out, all);
      ghost var before := buf[..];
      var printed := PrintLine(re, buf, p, q);
      SameTail(before, buf[..], q + 1, m);
      out := out + printed;
      p := q + 1;
    }
  }

  /** One line: its newline becomes a NUL for match, and is put back if the line is printed. */
  method PrintLine(re: seq<byte>, buf: array<byte>, p: nat, q: nat) returns (printed: seq<byte>)
    requires p <= q < buf.Length && buf[q] == NEWLINE
    modifies buf
    ensures printed == if Matches(re, old(buf[p..q])) then old(buf[p..q]) + [NEWLINE] else []
    ensures buf[q + 1..] == old(buf[q + 1..])
  {
    hide Matches;
    ghost var line := buf[p..q];
    printed := [];
    buf[q] := 0;
    assert buf[p..q] == line;
    var hit := Match(re, buf[p..q]);
    if hit {
      buf[q] := NEWLINE;
      printed := buf[p..q + 1];
    }
  }

  lemma SameText(b: seq<byte>, text: seq<byte>, p: nat, q: nat, m: nat)
    requires p <= q < m <= |b| && |text| == m && b[p..m] == text[p..]
    ensures b[p..q] == text[p..q] && b[q] == text[q] && b[q + 1..m] == text[q + 1..]
  {
    assert forall j :: p <= j < m ==> b[j] == b[p..m][j - p] && text[j] == text[p..][j - p];
  }

  lemma SameTail(b: seq<byte>, b': seq<byte>, q: nat, m: nat)
    requires |b| == |b'| && q <= m < |b| && b'[q..] == b[q..]
    ensures b'[q..m] == b[q..m] && b'[m] == b[m]
  {
    assert forall j :: q <= j < |b| ==> b[j] == b[q..][j - q] && b'[j] == b'[q..][j - q];
  }

  lemma NextLine(re: seq<byte>, text: seq<byte>, p: nat, q: nat, rest: seq<byte>, out: seq<byte>, all: seq<byte>)
    requires p <= q < |text| < SIZE && text[q] == NEWLINE && NEWLINE !in text[p..q] && 0 !in text[p..q]
    requires out + Shown(re, text[p..] + rest) == all
    ensures (out + if Matches(re, text[p..q]) then text[p..q] + [NEWLINE]
              else []) + Shown(re, text[q + 1..] + rest) == all
  {
    hide Printed, Matches, Text;
    var line, more := text[p..q], text[q + 1..] + rest;
    assert text[p..] + rest == (line + [NEWLINE]) + more;
    TextAppend(line + [NEWLINE], more);
    PrintedLine(re, line, Text(more));
    var sel := Shown(re, more);
    assert out + ((line + [NEWLINE]) + sel) == (out + (line + [NEWLINE])) + sel;
    assert out + ([] + sel) == (out + []) + sel;
  }

  /** read: append to the text in the buffer, and end it with a NUL. */
  method Refill(buf: array<byte>, m: nat, data: seq<byte>)
    requires m + |data| < buf.Length
    modifies buf
    ensures buf[..m + |data|] == old(buf[..m]) + data && buf[m + |data|] == 0
  {
    ghost var before := buf[..m];
    for i := 0 to |data|
      invariant buf[..m + i] == before + data[..i]
    {
      buf[m + i] := data[i];
      assert buf[..m + i + 1] == buf[..m + i] + [data[i]];
    }
    buf[m + |data|] := 0;
    assert data[..|data|] == data;
  }

  /** memmove of the text from p to m to the start of the buffer. */
  method Shift(buf: array<byte>, p: nat, m: nat)
    requires p <= m <= buf.Length
    modifies buf
    ensures buf[..m - p] == old(buf[p..m])
  {
    ghost var text := buf[p..m];
    for i := 0 to m - p
      invariant buf[..i] == text[..i] && buf[p + i..m] == text[i..]
    {
      assert buf[p + i] == buf[p + i..m][0];
      buf[i] := buf[p + i];
      assert buf[p + (i + 1)..m] == text[i..][1..];
    }
  }

  lemma Appended(text: seq<byte>, rest: seq<byte>, n: nat)
    requires n <= |rest|
    ensures (text + rest[..n]) + rest[n..] == text + rest
  {
    assert rest == rest[..n] + rest[n..];
  }

  lemma ShownIs(re: seq<byte>, s: seq<byte>)
    ensures Shown(re, s) == Printed(re, Text(s))
  {
  }

  lemma FittingLinesAreShown(re: seq<byte>, s: seq<byte>)
    requires LinesFit(s) && 0 !in s
    ensures Shown(re, s) == Selected(re, s)
  {
    hide Printed, Selected, LinesFit, Matches, Text;
    TextAll(s);
    FittingLinesArePrinted(re, s);
  }

  /** grep on any input, however read cuts it. */
  method Grep(re: seq<byte>, input: seq<byte>) returns (out: seq<byte>)
    ensures out == Shown(re, input)
    ensures LinesFit(Text(input)) ==> out == Selected(re, Text(input))
    ensures LinesFit(input) && 0 !in input ==> out == Selected(re, input)
  {
    hide Printed, Selected, LinesFit, Matches, Text, Shown;
    var buf := new byte[SIZE](i => 0);
    out := [];
    var rest := input;
    var m: nat := 0;
    assert buf[..0] + rest == input;
    if LinesFit(Text(input)) {
      FittingLinesArePrinted(re, Text(input));
      ShownIs(re, input);
    }
    if LinesFit(input) && 0 !in input {
      FittingLinesAreShown(re, input);
    }
    TextAt([], 0);
    while true
      invariant m < SIZE == buf.Length && NEWLINE !in Text(buf[..m])
      invariant out + Shown(re, buf[..m] + rest) == Shown(re, input)
      decreases |rest|
    {
      label Turn:
      var n := Read(SIZE - m - 1, |rest|);
      if n == 0 {
        LastText(re, buf[..m], rest);
        break;
      }
      Refill(buf, m, rest[..n]);
      Appended(old@Turn(buf[..m]), rest, n);
      rest := rest[n..];
      m := m + n;
      var p;
      p, out := PrintLines(re, buf, m, rest, Shown(re, input), out);
      Shift(buf, p, m);
      m := m - p;
    }
  }
}
