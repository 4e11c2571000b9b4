/** The parser of the shell as it runs (user/sh.c): a cursor that moves through the line, and
    nulterminate, which cuts the line into strings in place. */
module ShellParser {
  import opened Shell

  /** Redirections already seen, in front of the ones that follow. */
  function Before(rs: seq<Redirect>, r: Redirs): Redirs {
    match r
    case NoFile => NoFile
    case Redirs(more, pos) => Redirs(rs + more, pos)
  }

  lemma BeforeOne(rs: seq<Redirect>, x: Redirect, r: Redirs)
    ensures Before(rs, Before([x], r)) == Before(rs + [x], r)
  {
    if r.Redirs? {
      assert rs + ([x] + r.rs) == rs + [x] + r.rs;
    }
  }

  lemma BeforeNone(r: Redirs)
    ensures Before([], r) == r
  {
    if r.Redirs? {
      assert [] + r.rs == r.rs;
    }
  }

  /** Blanks before a token make no difference. */
  lemma SkipSame(s: string, p: nat)
    requires p <= |s|
    ensures Skip(s, Skip(s, p)) == Skip(s, p) && Lex(s, Skip(s, p)) == Lex(s, p)
  {
  }

  /** What a parsing method returns is what the function says. */
  predicate Agrees(r: Res, ok: bool, cmd: Cmd<Range>, pos: nat) {
    if ok then r == Ok(cmd, pos) else r.Panic?
  }

  // single steps of the functions, as the loops take them

  lemma RedirsEnd(s: string, p: nat)
    requires p <= |s| && !Sees(s, p, '<') && !Sees(s, p, '>')
    ensures ParseRedirs(s, p) == Redirs([], Skip(s, p))
  {
  }

  lemma RedirsStep(s: string, p: nat)
    requires p <= |s| && (Sees(s, p, '<') || Sees(s, p, '>'))
    ensures var t := Lex(s, p);
            var w := Lex(s, t.next);
            && t.next > p
            && ParseRedirs(s, p) == if w.kind != WORD then NoFile
                else Before([Redirect(t.kind, Range(w.q, w.eq))], ParseRedirs(s, w.next))
  {
    SeesLex(s, p, s[Skip(s, p)]);
  }

  class Parser {
    const line: string
    var ps: nat

    constructor (line: string)
      ensures this.line == line && ps == 0
    {
      this.line := line;
      ps := 0;
    }

    /** Skip white space. */
    method Blanks()
      requires ps <= |line|
      modifies this
      ensures ps == Skip(line, old(ps))
    {
      ghost var p := ps;
      while ps < |line| && IsSpace(line[ps])
        invariant p <= ps <= |line| && Skip(line, ps) == Skip(line, p)
        decreases |line| - ps
      {
        ps := ps + 1;
      }
    }

    method Gettoken() returns (t: Token)
      requires ps <= |line|
      modifies this
      ensures t == Lex(line, old(ps)) && ps == t.next
    {
      Blanks();
      var q, kind := ps, WORD;
      if ps == |line| || line[ps] == NUL {
        kind := NUL;
      } else if line[ps] == '>' {
        kind := '>';
        ps := ps + 1;
        if ps < |line| && line[ps] == '>' {
          kind := APPEND;
          ps := ps + 1;
        }
      } else if IsSymbol(line[ps]) {
        kind := line[ps];
        ps := ps + 1;
      } else {
        while ps < |line| && !IsSpace(line[ps]) && !IsSymbol(line[ps])
          invariant q <= ps <= |line| && WordEnd(line, ps) == WordEnd(line, q)
          decreases |line| - ps
        {
          ps := ps + 1;
        }
      }
      var eq := ps;
      Blanks();
      t := Token(kind, q, eq, ps);
    }

    method Peek(toks: string) returns (r: bool)
      requires ps <= |line|
      modifies this
      ensures ps == Skip(line, old(ps)) && Skip(line, ps) == ps
      ensures r <==> ps < |line| && line[ps] != NUL && line[ps] in toks
    {
      Blanks();
      return ps < |line| && line[ps] != NUL && line[ps] in toks;
    }

    method Parseredirs() returns (ok: bool, rs: seq<Redirect>)
      requires ps <= |line|
      modifies this
      ensures ps <= |line|
      ensures if ok then ParseRedirs(line, old(ps)) == Redirs(rs, ps) else ParseRedirs(line, old(ps)).NoFile?
    {
      hide Lex, ParseRedirs, Before, Skip;
      rs := [];
      ghost var p := ps;
      BeforeNone(ParseRedirs(line, p));
      while true
        invariant ps <= |line| && ParseRedirs(line, p) == Before(rs, ParseRedirs(line, ps))
        decreases |line| - ps
      {
        ghost var p1 := ps;
        SkipSame(line, p1);
        var more := Peek("<>");
        if !more {
          RedirsEnd(line, p1);
          BeforeAll(rs, ps);
          return true, rs;
        }
        RedirsStep(line, p1);
        var t := Gettoken();
        var w := Gettoken();
        if w.kind != WORD {
          BeforeFail(rs);
          return false, rs;
        }
        BeforeOne(rs, Redirect(t.kind, Range(w.q, w.eq)), ParseRedirs(line, w.next));
        rs := rs + [Redirect(t.kind, Range(w.q, w.eq))];
      }
    }

    method Parseexec() returns (ok: bool, cmd: Cmd<Range>)
      requires ps <= |line|
      modifies this
      ensures ps <= |line| && Agrees(ParseExec(line, old(ps)), ok, cmd, ps)
      decreases |line| - ps, 1
    {
      hide Lex, ParseRedirs, Skip, ParseArgs, ParseBlock, Wrap;
      cmd := Exec([]);
      ghost var p := ps;
      SkipSame(line, p);
      var block := Peek("(");
      if block {
        ExecBlock(line, p);
        ok, cmd := Parseblock();
        return;
      }
      var rs;
      RedirsSkip(line, p);
      ok, rs := Parseredirs();
      ExecSimple(line, p);
      if !ok {
        return;
      }
      var argv: seq<Range> := [];
      while true
        invariant ps <= |line| && |argv| < MAXARGS && ParseExec(line, p) == ParseArgs(line, argv, rs, ps)
        decreases |line| - ps
      {
        ghost var p1 := ps;
        SkipSame(line, p1);
        var stop := Peek("|)&;");
        ArgsStep(line, argv, rs, p1);
        if stop {
          return true, Wrap(Exec(argv), rs);
        }
        var t := Gettoken();
        if t.kind == NUL {
          return true, Wrap(Exec(argv), rs);
        }
        if t.kind != WORD {
          return false, cmd;
        }
        argv := argv + [Range(t.q, t.eq)];
        if |argv| >= MAXARGS {
          return false, cmd;
        }
        var more;
        ok, more := Parseredirs();
        if !ok {
          return;
        }
        rs := rs + more;
      }
    }

    method Parseblock() returns (ok: bool, cmd: Cmd<Range>)
      requires ps <= |line| && Sees(line, ps, '(')
      modifies this
      ensures ps <= |line| && Agrees(ParseBlock(line, old(ps)), ok, cmd, ps)
      decreases |line| - ps, 0
    {
      hide Lex, ParseRedirs, Skip, ParseLine, Wrap;
      ghost var p := ps;
      SkipSame(line, p);
      var open := Peek("(");
      SeesLex(line, p, '(');
      var t := Gettoken();
      ok, cmd := Parseline();
      if !ok {
        return;
      }
      ghost var p1 := ps;
      SkipSame(line, p1);
      var close := Peek(")");
      if !close {
        return false, cmd;
      }
      t := Gettoken();
      var rs;
      ok, rs := Parseredirs();
      if ok {
        cmd := Wrap(cmd, rs);
      }
    }

    method Parsepipe() returns (ok: bool, cmd: Cmd<Range>)
      requires ps <= |line|
      modifies this
      ensures ps <= |line| && Agrees(ParsePipe(line, old(ps)), ok, cmd, ps)
      decreases |line| - ps, 2
    {
      hide Lex, Skip, ParseExec;
      ghost var p := ps;
      ok, cmd := Parseexec();
      if !ok {
        return;
      }
      ghost var p1 := ps;
      SkipSame(line, p1);
      var more := Peek("|");
      if more {
        SeesLex(line, p1, '|');
        var t := Gettoken();
        var right;
        ok, right := Parsepipe();
        cmd := Pipe(cmd, right);
      }
    }

    method Parseline() returns (ok: bool, cmd: Cmd<Range>)
      requires ps <= |line|
      modifies this
      ensures ps <= |line| && Agrees(ParseLine(line, old(ps)), ok, cmd, ps)
      decreases |line| - ps, 3
    {
      hide Lex, Skip, ParsePipe, Backs, WordsOk;
      ghost var p := ps;
      ok, cmd := Parsepipe();
      if !ok {
        return;
      }
      ghost var p1, c := ps, cmd;
      while true
        invariant p <= ps <= |line| && WordsOk(line, cmd) && Backs(line, cmd, ps) == Backs(line, c, p1)
        decreases |line| - ps
      {
        ghost var p2 := ps;
        SkipSame(line, p2);
        BacksStep(line, cmd, p2);
        var more := Peek("&");
        if !more {
          break;
        }
        SeesLex(line, p2, '&');
        var t := Gettoken();
        cmd := Back(cmd);
      }
      ghost var p3 := ps;
      SkipSame(line, p3);
      var list := Peek(";");
      if list {
        SeesLex(line, p3, ';');
        var t := Gettoken();
        var right;
        ok, right := Parseline();
        cmd := List(cmd, right);
      }
    }
  }

  lemma BeforeAll(rs: seq<Redirect>, pos: nat)
    ensures Before(rs, Redirs([], pos)) == Redirs(rs, pos)
  {
    assert rs + [] == rs;
  }

  lemma BeforeFail(rs: seq<Redirect>)
    ensures Before(rs, NoFile) == NoFile
  {
  }

  lemma RedirsSkip(s: string, p: nat)
    requires p <= |s|
    ensures ParseRedirs(s, Skip(s, p)) == ParseRedirs(s, p)
  {
    hide Lex;
    SkipSame(s, p);
  }

  lemma ExecBlock(s: string, p: nat)
    requires p <= |s| && Sees(s, p, '(')
    ensures Sees(s, Skip(s, p), '(') && ParseExec(s, p) == ParseBlock(s, Skip(s, p))
  {
    hide Lex;
    SkipSame(s, p);
    assert ParseBlock(s, p) == ParseBlock(s, Skip(s, p));
  }

  lemma ExecSimple(s: string, p: nat)
    requires p <= |s| && !Sees(s, p, '(')
    ensures ParseExec(s, p) ==
            if ParseRedirs(s, p).NoFile? then Panic else ParseArgs(s, [], ParseRedirs(s, p).rs, ParseRedirs(s, p).pos)
  {
    hide Lex;
  }

  lemma ArgsStep(s: string, argv: seq<Range>, rs: seq<Redirect>, p: nat)
    requires p <= |s| && |argv| < MAXARGS
    ensures var t := Lex(s, p);
            ParseArgs(s, argv, rs, p) ==
            if Sees(s, p, '|') || Sees(s, p, ')') || Sees(s, p, '&') || Sees(s, p, ';') then
                Ok(Wrap(Exec(argv), rs), Skip(s, p))
            else if t.kind == NUL then Ok(Wrap(Exec(argv), rs), t.next)
            else if t.kind != WORD || |argv| + 1 >= MAXARGS then Panic
            else if ParseRedirs(s, t.next).NoFile? then Panic
            else ParseArgs(s, argv + [Range(t.q, t.eq)], rs + ParseRedirs(s, t.next).rs, ParseRedirs(s, t.next).pos)
  {
    hide Lex, ParseRedirs, Wrap;
  }

  lemma BacksStep(s: string, c: Cmd<Range>, p: nat)
    requires p <= |s| && WordsOk(s, c)
    ensures WordsOk(s, Back(c))
    ensures Backs(s, c, p) == if Sees(s, p, '&') then Backs(s, Back(c), Lex(s, p).next) else (c, Skip(s, p))
  {
    hide Lex;
  }

  // cutting the line into strings

  /** Every word of a command, file names included. */
  function WordsOf(c: Cmd<Range>): seq<Range> {
    match c
    case Exec(argv) => argv
    case Redir(d, _, file) => WordsOf(d) + [file]
    case Pipe(l, r) => WordsOf(l) + WordsOf(r)
    case List(l, r) => WordsOf(l) + WordsOf(r)
    case Back(d) => WordsOf(d)
  }

  lemma {:induction false} WordsAreTokens(s: string, c: Cmd<Range>)
    requires WordsOk(s, c)
    ensures forall k :: 0 <= k < |WordsOf(c)| ==> IsToken(s, WordsOf(c)[k])
  {
    match c
    case Exec(_) =>
    case Redir(d, _, _) => WordsAreTokens(s, d);
    case Pipe(l, r) => WordsAreTokens(s, l); WordsAreTokens(s, r);
    case List(l, r) => WordsAreTokens(s, l); WordsAreTokens(s, r);
    case Back(d) => WordsAreTokens(s, d);
  }

  predicate EndsIn(ws: seq<Range>, n: nat) {
    forall k :: 0 <= k < |ws| ==> ws[k].eq < n
  }

  /** The text with a NUL at the end of every word. */
  function Cut(t: seq<char>, ws: seq<Range>): (r: seq<char>)
    requires EndsIn(ws, |t|)
    ensures |r| == |t|
  {
    if ws == [] then t else Cut(t, ws[..|ws| - 1])[ws[|ws| - 1].eq := NUL]
  }

  lemma {:induction false} CutBoth(t: seq<char>, a: seq<Range>, b: seq<Range>)
    requires EndsIn(a, |t|) && EndsIn(b, |t|)
    ensures EndsIn(a + b, |t|) && Cut(t, a + b) == Cut(Cut(t, a), b)
    decreases |b|
  {
    if b == [] {
      assert a + b == a;
    } else {
      CutBoth(t, a, b[..|b| - 1]);
      assert (a + b)[..|a + b| - 1] == a + b[..|b| - 1];
    }
  }

  method Nulterminate(buf: array<char>, c: Cmd<Range>)
    requires EndsIn(WordsOf(c), buf.Length)
    modifies buf
    ensures buf[..] == Cut(old(buf[..]), WordsOf(c))
    decreases c
  {
    ghost var t := buf[..];
    match c
    case Exec(argv) =>
      for i := 0 to |argv|
        invariant EndsIn(argv[..i], buf.Length) && buf[..] == Cut(t, argv[..i])
      {
        assert argv[..i + 1][..i] == argv[..i];
        buf[argv[i].eq] := NUL;
      }
      assert argv[..|argv|] == argv;
    case Redir(d, _, file) =>
      Halves(WordsOf(d), [file], buf.Length);
      Nulterminate(buf, d);
      CutBoth(t, WordsOf(d), [file]);
      assert [file][..0] == [];
      assert [file][0] == file;
      buf[file.eq] := NUL;
    case Pipe(l, r) =>
      Halves(WordsOf(l), WordsOf(r), buf.Length);
      Nulterminate(buf, l);
      Nulterminate(buf, r);
      CutBoth(t, WordsOf(l), WordsOf(r));
    case List(l, r) =>
      Halves(WordsOf(l), WordsOf(r), buf.Length);
      Nulterminate(buf, l);
      Nulterminate(buf, r);
      CutBoth(t, WordsOf(l), WordsOf(r));
    case Back(d) => Nulterminate(buf, d);
  }

  lemma Halves(a: seq<Range>, b: seq<Range>, n: nat)
    requires EndsIn(a + b, n)
    ensures EndsIn(a, n) && EndsIn(b, n)
  {
    forall k | 0 <= k < |b|
      ensures b[k].eq < n
    {
      assert (a + b)[|a| + k] == b[k];
    }
    forall k | 0 <= k < |a|
      ensures a[k].eq < n
    {
      assert (a + b)[k] == a[k];
    }
  }

  lemma SliceOf(t: seq<char>, n: nat, a: nat, b: nat)
    requires a <= b <= n <= |t|
    ensures t[a..b] == t[..n][a..b]
  {
  }

  /** Ends of words lie in no word, so the NULs go between words only. */
  lemma {:induction false} CutKeeps(s: string, t: seq<char>, ws: seq<Range>, w: Range)
    requires |t| == |s| + 1 && t[..|s|] == s && IsToken(s, w) && forall k :: 0 <= k < |ws| ==> IsToken(s, ws[k])
    ensures EndsIn(ws, |t|) && Cut(t, ws)[w.q..w.eq] == s[w.q..w.eq]
    ensures forall k :: 0 <= k < |ws| ==> Cut(t, ws)[ws[k].eq] == NUL
    decreases |ws|
  {
    SliceOf(t, |s|, w.q, w.eq);
    if ws != [] {
      var v, rest := ws[|ws| - 1], ws[..|ws| - 1];
      CutKeeps(s, t, rest, w);
      assert forall k :: 0 <= k < |rest| ==> ws[k] == rest[k];
      assert !(w.q <= v.eq < w.eq);
      assert Cut(t, ws)[w.q..w.eq] == Cut(t, rest)[w.q..w.eq];
    }
  }

  /** parsecmd on a line in a buffer that a NUL ends: false is a panic. Afterwards each word of the
      command is a C string of its own, exactly its token. */
  method Parsecmd(buf: array<char>, n: nat) returns (ok: bool, cmd: Cmd<Range>)
    requires n + 1 == buf.Length && buf[n] == NUL && NUL !in buf[..n]
    modifies buf
    ensures ok <==> ParseCmd(old(buf[..n])).Ok?
    ensures ok ==> cmd == ParseCmd(old(buf[..n])).cmd
    ensures ok ==> forall k :: 0 <= k < |WordsOf(cmd)| ==> StringAt(buf[..], old(buf[..n]), WordsOf(cmd)[k])
  {
    hide ParseLine, Cut;
    ghost var s, t := buf[..n], buf[..];
    var p := new Parser(buf[..n]);
    ok, cmd := p.Parseline();
    if !ok {
      return;
    }
    var rest := p.Peek("");
    if p.ps != n {
      return false, cmd;
    }
    WordsAreTokens(s, cmd);
    TokensEnd(s, WordsOf(cmd));
    Nulterminate(buf, cmd);
    forall k | 0 <= k < |WordsOf(cmd)|
      ensures StringAt(buf[..], s, WordsOf(cmd)[k])
    {
      CutKeeps(s, t, WordsOf(cmd), WordsOf(cmd)[k]);
    }
  }

  lemma TokensEnd(s: string, ws: seq<Range>)
    requires forall k :: 0 <= k < |ws| ==> IsToken(s, ws[k])
    ensures EndsIn(ws, |s| + 1)
  {
    forall k | 0 <= k < |ws|
      ensures ws[k].eq < |s| + 1
    {
      assert IsToken(s, ws[k]);
    }
  }

  /** The C string at w is the word that stood there, a token of the line. */
  predicate StringAt(t: seq<char>, s: string, w: Range) {
    && IsToken(s, w) && |t| == |s| + 1
    && t[w.q..w.eq] == s[w.q..w.eq] && t[w.eq] == NUL && NUL !in t[w.q..w.eq]
  }
}
