/** The shell's parser (user/sh.c): tokens, the recursive descent over a cursor, and what it makes
    of every command line. Strings have no NUL inside; positions are offsets into the line. */
module Shell {
  const MAXARGS: nat := 10
  const NUL: char := '\0'
  /** What gettoken returns for a word and for >>. */
  const WORD: char := 'a'
  const APPEND: char := '+'

  predicate IsSpace(c: char) {
    c == ' ' || c == '\t' || c == '\r' || c == '\n' || c == '\U{0B}'
  }

  predicate IsSymbol(c: char) {
    c == '<' || c == '|' || c == '>' || c == '&' || c == ';' || c == '(' || c == ')'
  }

  predicate InWord(c: char) {
    !IsSpace(c) && !IsSymbol(c)
  }

  // command trees, over words as they stand in the line or as strings

  datatype Cmd<W> =
    | Exec(argv: seq<W>)
    | Redir(cmd: Cmd<W>, op: char, file: W)
    | Pipe(left: Cmd<W>, right: Cmd<W>)
    | List(left: Cmd<W>, right: Cmd<W>)
    | Back(cmd: Cmd<W>)

  datatype Range = Range(q: nat, eq: nat)

  datatype Redirect = Redirect(op: char, file: Range)

  /** redircmd's wrapped around a command, the last outermost. */
  function Wrap(c: Cmd<Range>, rs: seq<Redirect>): Cmd<Range> {
    if rs == [] then c
    else Redir(Wrap(c, rs[..|rs| - 1]), rs[|rs| - 1].op, rs[|rs| - 1].file)
  }

  // tokens

  function Skip(s: string, p: nat): (r: nat)
    requires p <= |s|
    ensures p <= r <= |s| && (r < |s| ==> !IsSpace(s[r])) && forall k :: p <= k < r ==> IsSpace(s[k])
    decreases |s| - p
  {
    if p < |s| && IsSpace(s[p]) then Skip(s, p + 1) else p
  }

  function WordEnd(s: string, p: nat): (r: nat)
    requires p <= |s|
    ensures p <= r <= |s| && (r < |s| ==> !InWord(s[r])) && forall k :: p <= k < r ==> InWord(s[k])
    decreases |s| - p
  {
    if p < |s| && InWord(s[p]) then WordEnd(s, p + 1) else p
  }

  datatype Token = Token(kind: char, q: nat, eq: nat, next: nat)

  /** A word in the line: nothing but word characters, and as long as it can be. */
  predicate IsToken(s: string, w: Range) {
    && w.q < w.eq <= |s| && (w.eq < |s| ==> !InWord(s[w.eq]))
    && forall k :: w.q <= k < w.eq ==> InWord(s[k])
  }

  /** gettoken. */
  function Lex(s: string, p: nat): (t: Token)
    requires p <= |s|
    ensures p <= t.q <= t.eq <= t.next <= |s|
    ensures t.kind == NUL <==> t.q == |s| || s[t.q] == NUL
    ensures t.kind != NUL ==> t.q < t.eq
    ensures t.kind == WORD ==> IsToken(s, Range(t.q, t.eq))
  {
    var q := Skip(s, p);
    if q == |s| || s[q] == NUL then Token(NUL, q, q, Skip(s, q))
    else if s[q] == '>' && q + 1 < |s| && s[q + 1] == '>' then Token(APPEND, q, q + 2, Skip(s, q + 2))
    else if IsSymbol(s[q]) then Token(s[q], q, q + 1, Skip(s, q + 1))
    else Token(WORD, q, WordEnd(s, q), Skip(s, WordEnd(s, q)))
  }

  /** peek for one character. */
  predicate Sees(s: string, p: nat, c: char)
    requires p <= |s|
  {
    Skip(s, p) < |s| && s[Skip(s, p)] == c
  }

  lemma SeesLex(s: string, p: nat, c: char)
    requires p <= |s| && Sees(s, p, c) && c != NUL
    ensures Lex(s, p).next > p
  {
  }

  // the parser

  datatype Res = Ok(cmd: Cmd<Range>, pos: nat) | Panic

  datatype Redirs = Redirs(rs: seq<Redirect>, pos: nat) | NoFile

  ghost predicate WordsOk(s: string, c: Cmd<Range>) {
    match c
    case Exec(argv) => |argv| < MAXARGS && forall k :: 0 <= k < |argv| ==> IsToken(s, argv[k])
    case Redir(d, _, file) => WordsOk(s, d) && IsToken(s, file)
    case Pipe(l, r) => WordsOk(s, l) && WordsOk(s, r)
    case List(l, r) => WordsOk(s, l) && WordsOk(s, r)
    case Back(d) => WordsOk(s, d)
  }

  ghost predicate FilesOk(s: string, rs: seq<Redirect>) {
    forall k :: 0 <= k < |rs| ==> IsToken(s, rs[k].file)
  }

  lemma {:induction false} WrapOk(s: string, c: Cmd<Range>, rs: seq<Redirect>)
    requires WordsOk(s, c) && FilesOk(s, rs)
    ensures WordsOk(s, Wrap(c, rs))
  {
    if rs != [] {
      WrapOk(s, c, rs[..|rs| - 1]);
    }
  }

  function ParseRedirs(s: string, p: nat): (r: Redirs)
    requires p <= |s|
    ensures r.Redirs? ==> p <= r.pos <= |s| && FilesOk(s, r.rs)
    decreases |s| - p
  {
    if Sees(s, p, '<') || Sees(s, p, '>') then
      var t := Lex(s, p);
      var w := Lex(s, t.next);
      if w.kind != WORD then NoFile
      else
        match ParseRedirs(s, w.next)
        case NoFile => NoFile
        case Redirs(rs, pos) => Redirs([Redirect(t.kind, Range(w.q, w.eq))] + rs, pos)
    else Redirs([], Skip(s, p))
  }

  /** The loop of parseexec, with the words and redirections so far. */
  function ParseArgs(s: string, argv: seq<Range>, rs: seq<Redirect>, p: nat): (r: Res)
    requires p <= |s| && |argv| < MAXARGS
    decreases |s| - p
  {
    if Sees(s, p, '|') || Sees(s, p, ')') || Sees(s, p, '&') || Sees(s, p, ';') then
        Ok(Wrap(Exec(argv), rs), Skip(s, p))
    else
      var t := Lex(s, p);
      if t.kind == NUL then Ok(Wrap(Exec(argv), rs), t.next)
      else if t.kind != WORD || |argv| + 1 >= MAXARGS then Panic
      else
        match ParseRedirs(s, t.next)
        case NoFile => Panic
        case Redirs(more, pos) => ParseArgs(s, argv + [Range(t.q, t.eq)], rs + more, pos)
  }

  lemma {:induction false} ArgsOk(s: string, argv: seq<Range>, rs: seq<Redirect>, p: nat)
    requires p <= |s| && WordsOk(s, Exec(argv)) && FilesOk(s, rs)
    ensures var r := ParseArgs(s, argv, rs, p); r.Ok? ==> p <= r.pos <= |s| && WordsOk(s, r.cmd)
    decreases |s| - p
  {
    WrapOk(s, Exec(argv), rs);
    var t := Lex(s, p);
    if !(Sees(s, p, '|') || Sees(s, p, ')') || Sees(s, p, '&') ||
        Sees(s, p, ';')) && t.kind == WORD && |argv| + 1 < MAXARGS {
      var r := ParseRedirs(s, t.next);
      if r.Redirs? {
        ArgsOk(s, argv + [Range(t.q, t.eq)], rs + r.rs, r.pos);
      }
    }
  }

  function ParseExec(s: string, p: nat): (r: Res)
    requires p <= |s|
    ensures r.Ok? ==> p <= r.pos <= |s| && WordsOk(s, r.cmd)
    decreases |s| - p, 1
  {
    if Sees(s, p, '(') then ParseBlock(s, p)
    else
      match ParseRedirs(s, p)
      case NoFile => Panic
      case Redirs(rs, pos) =>
        ArgsOk(s, [], rs, pos);
        ParseArgs(s, [], rs, pos)
  }

  function ParseBlock(s: string, p: nat): (r: Res)
    requires p <= |s| && Sees(s, p, '(')
    ensures r.Ok? ==> p <= r.pos <= |s| && WordsOk(s, r.cmd)
    decreases |s| - p, 0
  {
    match ParseLine(s, Lex(s, p).next)
    case Panic => Panic
    case Ok(c, p1) =>
      if !Sees(s, p1, ')') then Panic
      else
        match ParseRedirs(s, Lex(s, p1).next)
        case NoFile => Panic
        case Redirs(rs, pos) =>
          WrapOk(s, c, rs);
          Ok(Wrap(c, rs), pos)
  }

  function ParsePipe(s: string, p: nat): (r: Res)
    requires p <= |s|
    ensures r.Ok? ==> p <= r.pos <= |s| && WordsOk(s, r.cmd)
    decreases |s| - p, 2
  {
    match ParseExec(s, p)
    case Panic => Panic
    case Ok(c, p1) =>
      if Sees(s, p1, '|') then
        match ParsePipe(s, Lex(s, p1).next)
        case Panic => Panic
        case Ok(d, p2) => Ok(Pipe(c, d), p2)
      else Ok(c, Skip(s, p1))
  }

  /** The loop of parseline. */
  function Backs(s: string, c: Cmd<Range>, p: nat): (r: (Cmd<Range>, nat))
    requires p <= |s| && WordsOk(s, c)
    ensures p <= r.1 <= |s| && WordsOk(s, r.0)
    decreases |s| - p
  {
    if Sees(s, p, '&') then Backs(s, Back(c), Lex(s, p).next) else (c, Skip(s, p))
  }

  function ParseLine(s: string, p: nat): (r: Res)
    requires p <= |s|
    ensures r.Ok? ==> p <= r.pos <= |s| && WordsOk(s, r.cmd)
    decreases |s| - p, 3
  {
    match ParsePipe(s, p)
    case Panic => Panic
    case Ok(c, p1) =>
      var (d, p2) := Backs(s, c, p1);
      if Sees(s, p2, ';') then
        match ParseLine(s, Lex(s, p2).next)
        case Panic => Panic
        case Ok(e, p3) => Ok(List(d, e), p3)
      else Ok(d, Skip(s, p2))
  }

  /** parsecmd. */
  function ParseCmd(s: string): (r: Res)
    ensures r.Ok? ==> WordsOk(s, r.cmd)
  {
    match ParseLine(s, 0)
    case Panic => Panic
    case Ok(c, p) => if Skip(s, p) != |s| then Panic else Ok(c, |s|)
  }
}
