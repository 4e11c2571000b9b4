/** Parsing the parenthesised rendering of a command tree gives the tree back (user/sh.c). */
module ShellRoundTrip {
  import opened Shell

  predicate IsWord(w: string) {
    w != "" && forall k :: 0 <= k < |w| ==> InWord(w[k]) && w[k] != NUL
  }

  predicate IsOp(op: char) {
    op == '<' || op == '>' || op == APPEND
  }

  /** A tree that a shell user can write: proper words, fewer than MAXARGS of them per command. */
  predicate Wellformed(t: Cmd<string>) {
    match t
    case Exec(argv) => |argv| < MAXARGS && forall k :: 0 <= k < |argv| ==> IsWord(argv[k])
    case Redir(c, op, file) => Wellformed(c) && IsOp(op) && IsWord(file)
    case Pipe(l, r) => Wellformed(l) && Wellformed(r)
    case List(l, r) => Wellformed(l) && Wellformed(r)
    case Back(c) => Wellformed(c)
  }

  function Words(argv: seq<string>): string {
    if argv == [] then "" else argv[0] + " " + Words(argv[1..])
  }

  function OpText(op: char): string {
    if op == APPEND then ">>" else [op]
  }

  /** The text of a tree, with every operand in parentheses. */
  function Render(t: Cmd<string>): string {
    match t
    case Exec(argv) => Words(argv)
    case Redir(c, op, file) => "(" + Render(c) + ")" + OpText(op) + file
    case Pipe(l, r) => "(" + Render(l) + ")" + "|" + "(" + Render(r) + ")"
    case List(l, r) => "(" + Render(l) + ")" + ";" + "(" + Render(r) + ")"
    case Back(c) => "(" + Render(c) + ")" + "&"
  }

  /** The tree that a parse result stands for in line s. */
  function Text(s: string, c: Cmd<Range>): Cmd<string>
    requires WordsOk(s, c)
  {
    match c
    case Exec(argv) => Exec(Texts(s, argv))
    case Redir(d, op, file) => Redir(Text(s, d), op, WordText(s, file))
    case Pipe(l, r) => Pipe(Text(s, l), Text(s, r))
    case List(l, r) => List(Text(s, l), Text(s, r))
    case Back(d) => Back(Text(s, d))
  }

  function WordText(s: string, w: Range): string
    requires IsToken(s, w)
  {
    s[w.q..w.eq]
  }

  function Texts(s: string, argv: seq<Range>): (r: seq<string>)
    requires forall k :: 0 <= k < |argv| ==> IsToken(s, argv[k])
  {
    if argv == [] then [] else Texts(s, argv[..|argv| - 1]) + [WordText(s, argv[|argv| - 1])]
  }

  lemma TextsAppend(s: string, argv: seq<Range>, w: Range)
    requires IsToken(s, w) && forall k :: 0 <= k < |argv| ==> IsToken(s, argv[k])
    ensures forall k :: 0 <= k < |argv + [w]| ==> IsToken(s, (argv + [w])[k])
    ensures Texts(s, argv + [w]) == Texts(s, argv) + [WordText(s, w)]
  {
    assert (argv + [w])[..|argv|] == argv;
  }

  // pieces of the line

  /** x stands in s at p. */
  predicate At(s: string, p: nat, x: string) {
    p + |x| <= |s| && s[p..p + |x|] == x
  }

  lemma AtSplit(s: string, p: nat, x: string, y: string)
    requires At(s, p, x + y)
    ensures At(s, p, x) && At(s, p + |x|, y)
  {
    var z := s[p..p + |x + y|];
    assert s[p..p + |x|] == z[..|x|] && s[p + |x|..p + |x| + |y|] == z[|x|..];
  }

  lemma AtHead(s: string, p: nat, x: string)
    requires At(s, p, x) && x != ""
    ensures p < |s| && s[p] == x[0]
  {
    assert s[p] == s[p..p + |x|][0];
  }

  lemma AtChar(s: string, p: nat, c: char)
    requires At(s, p, [c])
    ensures p < |s| && s[p] == c
  {
    assert s[p] == s[p..p + 1][0];
  }

  /** The end of a command: the end of the line or a closing parenthesis. */
  predicate Stops(s: string, p: nat) {
    p == |s| || (p < |s| && s[p] == ')')
  }

  // tokens in place

  lemma SkipNothing(s: string, p: nat)
    requires p <= |s| && (p < |s| ==> !IsSpace(s[p]))
    ensures Skip(s, p) == p
  {
  }

  lemma LexSymbol(s: string, p: nat, c: char)
    requires p < |s| && s[p] == c && IsSymbol(c) && c != '>' && (p + 1 < |s| ==> !IsSpace(s[p + 1]))
    ensures Lex(s, p) == Token(c, p, p + 1, p + 1) && Skip(s, p) == p
  {
    SkipNothing(s, p);
    SkipNothing(s, p + 1);
  }

  lemma LexOp(s: string, p: nat, op: char)
    requires IsOp(op) && At(s, p, OpText(op)) && p + |OpText(op)| < |s| && InWord(s[p + |OpText(op)|])
    ensures Lex(s, p) == Token(op, p, p + |OpText(op)|, p + |OpText(op)|)
    ensures Sees(s, p, '<') || Sees(s, p, '>')
  {
    assert s[p] == s[p..p + |OpText(op)|][0];
    if op == APPEND {
      assert s[p + 1] == s[p..p + 2][1];
    }
    SkipNothing(s, p);
    SkipNothing(s, p + |OpText(op)|);
  }

  lemma LexWord(s: string, p: nat, w: string)
    requires IsWord(w) && At(s, p, w) && (p + |w| < |s| ==> !InWord(s[p + |w|]))
    ensures Skip(s, p) == p && InWord(s[p]) && s[p] != NUL
    ensures Lex(s, p) == Token(WORD, p, p + |w|, Skip(s, p + |w|))
    ensures IsToken(s, Range(p, p + |w|)) && WordText(s, Range(p, p + |w|)) == w
  {
    AtHead(s, p, w);
    SkipNothing(s, p);
    assert forall k :: p <= k < p + |w| ==> s[k] == s[p..p + |w|][k - p];
    EndOfWord(s, p, p + |w|);
  }

  lemma {:induction false} EndOfWord(s: string, p: nat, e: nat)
    requires p <= e <= |s| && (e < |s| ==> !InWord(s[e])) && forall k :: p <= k < e ==> InWord(s[k])
    ensures WordEnd(s, p) == e
    decreases e - p
  {
    if p < e {
      EndOfWord(s, p + 1, e);
    }
  }

  /** No redirections follow. */
  lemma NoRedirs(s: string, p: nat)
    requires p <= |s| && (p < |s| ==> !IsSpace(s[p]) && s[p] != '<' && s[p] != '>')
    ensures ParseRedirs(s, p) == Redirs([], p)
  {
    SkipNothing(s, p);
  }

  // simple commands

  /** parseexec's loop takes one word that is followed by a space. */
  lemma ArgStep(s: string, p: nat, argv: seq<Range>, w: string)
    requires |argv| + 1 < MAXARGS && IsWord(w) && At(s, p, w) && p + |w| < |s| && s[p + |w|] == ' '
    requires var p1 := p + |w| + 1; p1 < |s| ==> !IsSpace(s[p1]) && s[p1] != '<' && s[p1] != '>'
    ensures ParseArgs(s, argv, [], p) == ParseArgs(s, argv + [Range(p, p + |w|)], [], p + |w| + 1)
  {
    var p1 := p + |w| + 1;
    LexWord(s, p, w);
    SkipNothing(s, p1);
    assert Skip(s, p + |w|) == p1;
    NoRedirs(s, p1);
    var none: seq<Redirect> := [];
    assert none + none == none;
  }

  /** The rest of a command is parsed to these words after the ones so far. */
  predicate ArgsGive(s: string, p: nat, e: nat, argv: seq<Range>, words: seq<string>)
    requires p <= |s| && |argv| < MAXARGS && forall k :: 0 <= k < |argv| ==> IsToken(s, argv[k])
  {
    var r := ParseArgs(s, argv, [], p);
    && r.Ok? && r.pos == e && r.cmd.Exec? && (forall k :: 0 <= k < |r.cmd.argv| ==> IsToken(s, r.cmd.argv[k]))
    && |r.cmd.argv| < MAXARGS && Texts(s, r.cmd.argv) == Texts(s, argv) + words
  }

  /** The words of a command from number |argv| on. */
  lemma {:induction false} ArgsRendered(s: string, p: nat, argv: seq<Range>, words: seq<string>)
    requires |argv| + |words| < MAXARGS && (forall k :: 0 <= k < |words| ==> IsWord(words[k]))
    requires p <= |s| && At(s, p, Words(words)) && Stops(s, p + |Words(words)|)
    requires forall k :: 0 <= k < |argv| ==> IsToken(s, argv[k])
    ensures ArgsGive(s, p, p + |Words(words)|, argv, words)
    decreases |words|
  {
    hide ArgsGive, At, Stops, Words, IsWord, IsToken, WordText;
    if words == [] {
      ArgsEnd(s, p, argv, words);
    } else {
      var w, rest := words[0], words[1..];
      WordsCons(words);
      AtSplit(s, p, w, " " + Words(rest));
      AtSplit(s, p + |w|, " ", Words(rest));
      AtChar(s, p + |w|, ' ');
      var p1 := p + |w| + 1;
      StartsClean(s, p1, rest);
      LexWord(s, p, w);
      TextsAppend(s, argv, Range(p, p + |w|));
      ArgsRendered(s, p1, argv + [Range(p, p + |w|)], rest);
      ArgsNext(s, p, p1 + |Words(rest)|, argv, argv + [Range(p, p + |w|)], w, rest);
      assert words == [w] + rest;
    }
  }

  lemma ArgsNext(s: string, p: nat, e: nat, argv: seq<Range>, argv': seq<Range>, w: string, rest: seq<string>)
    requires |argv| + 1 < MAXARGS && IsWord(w) && At(s, p, w) && p + |w| < |s| && s[p + |w|] == ' '
    requires var p1 := p + |w| + 1; p1 < |s| ==> !IsSpace(s[p1]) && s[p1] != '<' && s[p1] != '>'
    requires (forall k :: 0 <= k < |argv| ==> IsToken(s, argv[k])) && IsToken(s, Range(p, p + |w|))
    requires WordText(s, Range(p, p + |w|)) == w
    requires argv' == argv + [Range(p, p + |w|)] && forall k :: 0 <= k < |argv'| ==> IsToken(s, argv'[k])
    requires ArgsGive(s, p + |w| + 1, e, argv', rest)
    ensures ArgsGive(s, p, e, argv, [w] + rest)
  {
    hide ParseArgs, At, IsWord, IsToken, WordText, Texts;
    ArgStep(s, p, argv, w);
    TextsAppend(s, argv, Range(p, p + |w|));
    assert Texts(s, argv) + [w] + rest == Texts(s, argv) + ([w] + rest);
  }

  lemma WordsCons(words: seq<string>)
    requires words != []
    ensures Words(words) == words[0] + (" " + Words(words[1..]))
  {
  }

  lemma ArgsEnd(s: string, p: nat, argv: seq<Range>, words: seq<string>)
    requires p <= |s| && words == [] && Stops(s, p + |Words(words)|) && |argv| < MAXARGS
    requires forall k :: 0 <= k < |argv| ==> IsToken(s, argv[k])
    ensures ArgsGive(s, p, p + |Words(words)|, argv, words)
  {
    SkipNothing(s, p);
    assert Texts(s, argv) + [] == Texts(s, argv);
  }

  /** What comes next is a word, or the end of the command. */
  lemma StartsClean(s: string, p: nat, words: seq<string>)
    requires p <= |s| && At(s, p, Words(words)) && Stops(s, p + |Words(words)|)
    requires forall k :: 0 <= k < |words| ==> IsWord(words[k])
    ensures p < |s| ==> !IsSpace(s[p]) && s[p] != '<' && s[p] != '>' && s[p] != '('
    ensures Skip(s, p) == p
  {
    if words != [] {
      WordsCons(words);
      AtHead(s, p, Words(words));
    }
    SkipNothing(s, p);
  }

  lemma ExecRendered(s: string, p: nat, argv: seq<string>)
    requires Wellformed(Exec(argv)) && At(s, p, Words(argv)) && Stops(s, p + |Words(argv)|)
    ensures var r := ParseExec(s, p);
            r.Ok? && r.pos == p + |Words(argv)| && WordsOk(s, r.cmd) && Text(s, r.cmd) == Exec(argv)
  {
    StartsClean(s, p, argv);
    NoRedirs(s, p);
    ArgsRendered(s, p, [], argv);
    assert [] + argv == argv;
  }

  // compound commands

  /** ParseLine finds t between p and e. */
  predicate LineGives(s: string, p: nat, e: nat, t: Cmd<string>) {
    && p <= |s|
    && var r := ParseLine(s, p);
       r.Ok? && r.pos == e && Text(s, r.cmd) == t
  }

  predicate ExecGives(s: string, p: nat, e: nat, t: Cmd<string>) {
    && p <= |s|
    && var r := ParseExec(s, p);
       r.Ok? && r.pos == e && Text(s, r.cmd) == t
  }

  // one level of the descent

  lemma PipeEnd(s: string, p: nat, c: Cmd<Range>, e: nat)
    requires p <= |s| && ParseExec(s, p) == Ok(c, e) && !Sees(s, e, '|')
    ensures ParsePipe(s, p) == Ok(c, Skip(s, e))
  {
    hide Lex, Sees;
  }

  lemma PipeMore(s: string, p: nat, c: Cmd<Range>, e: nat, d: Cmd<Range>, e2: nat)
    requires p <= |s| && ParseExec(s, p) == Ok(c, e) && Sees(s, e, '|') && ParsePipe(s, Lex(s, e).next) == Ok(d, e2)
    ensures ParsePipe(s, p) == Ok(Pipe(c, d), e2)
  {
    hide Lex, Sees;
  }

  lemma LineEnd(s: string, p: nat, c: Cmd<Range>, e: nat, d: Cmd<Range>, e2: nat)
    requires p <= |s| && ParsePipe(s, p) == Ok(c, e) && Backs(s, c, e) == (d, e2) && !Sees(s, e2, ';')
    ensures ParseLine(s, p) == Ok(d, Skip(s, e2))
  {
    hide Lex, Sees, Backs;
  }

  lemma LineMore(s: string, p: nat, c: Cmd<Range>, e: nat, d: Cmd<Range>, e2: nat, f: Cmd<Range>, e3: nat)
    requires p <= |s| && ParsePipe(s, p) == Ok(c, e) && Backs(s, c, e) == (d, e2) && Sees(s, e2, ';')
    requires ParseLine(s, Lex(s, e2).next) == Ok(f, e3)
    ensures ParseLine(s, p) == Ok(List(d, f), e3)
  {
    hide Lex, Sees, Backs;
  }

  lemma NoBacks(s: string, c: Cmd<Range>, e: nat)
    requires e <= |s| && WordsOk(s, c) && !Sees(s, e, '&')
    ensures Backs(s, c, e) == (c, Skip(s, e))
  {
    hide Lex, Sees;
  }

  lemma BlockEnd(s: string, p: nat, c: Cmd<Range>, m: nat, rs: seq<Redirect>, e: nat)
    requires p <= |s| && Sees(s, p, '(') && ParseLine(s, Lex(s, p).next) == Ok(c, m) && Sees(s, m, ')')
    requires ParseRedirs(s, Lex(s, m).next) == Redirs(rs, e)
    ensures ParseExec(s, p) == Ok(Wrap(c, rs), e)
  {
    hide Lex, Sees, Wrap, ParseRedirs;
    assert ParseBlock(s, p) == Ok(Wrap(c, rs), e);
  }

  /** A command that nothing follows is the whole line. */
  lemma LineOfExec(s: string, p: nat, e: nat, t: Cmd<string>)
    requires ExecGives(s, p, e, t) && e <= |s| && Stops(s, e)
    ensures LineGives(s, p, e, t)
  {
    hide Text, ParseExec, ParsePipe, ParseLine, Backs, Lex;
    SkipNothing(s, e);
    var c := ParseExec(s, p).cmd;
    PipeEnd(s, p, c, e);
    NoBacks(s, c, e);
    LineEnd(s, p, c, e, c, e);
  }

  /** A block and the redirections after it. */
  lemma BlockGives(s: string, p: nat, m: nat, t: Cmd<string>)
    requires p + 1 <= m < |s| && s[p] == '(' && s[m] == ')' && LineGives(s, p + 1, m, t)
    requires p + 1 < |s| && !IsSpace(s[p + 1])
    requires m + 1 < |s| ==> !IsSpace(s[m + 1]) && s[m + 1] != '<' && s[m + 1] != '>'
    ensures ExecGives(s, p, m + 1, t)
  {
    hide Text, ParseLine, ParseExec, ParseRedirs, Lex;
    LexSymbol(s, p, '(');
    LexSymbol(s, m, ')');
    SkipNothing(s, m);
    NoRedirs(s, m + 1);
    BlockEnd(s, p, ParseLine(s, p + 1).cmd, m, [], m + 1);
  }

  lemma BlockRedirGives(s: string, p: nat, m: nat, t: Cmd<string>, op: char, file: string)
    requires p + 1 <= m < |s| && s[p] == '(' && s[m] == ')' && LineGives(s, p + 1, m, t)
    requires p + 1 < |s| && !IsSpace(s[p + 1]) && IsOp(op) && IsWord(file)
    requires At(s, m + 1, OpText(op)) && At(s, m + 1 + |OpText(op)|, file)
    requires Stops(s, m + 1 + |OpText(op)| + |file|)
    ensures ExecGives(s, p, m + 1 + |OpText(op)| + |file|, Redir(t, op, file))
  {
    hide IsWord, IsOp, InWord, At, OpText, Lex, ParseRedirs, WordEnd, ParseLine, ParseExec;
    var f := m + 1 + |OpText(op)|;
    LexSymbol(s, p, '(');
    BeforeOp(s, m, op);
    LexSymbol(s, m, ')');
    SkipNothing(s, m);
    RedirGives(s, m + 1, op, file);
    var c, w := ParseLine(s, p + 1).cmd, Range(f, f + |file|);
    FileText(s, f, file);
    WrapOne(c, Redirect(op, w));
    BlockEnd(s, p, c, m, [Redirect(op, w)], f + |file|);
  }

  lemma BeforeOp(s: string, m: nat, op: char)
    requires IsOp(op) && At(s, m + 1, OpText(op))
    ensures m + 1 < |s| && !IsSpace(s[m + 1])
  {
    AtHead(s, m + 1, OpText(op));
  }

  lemma FileText(s: string, f: nat, file: string)
    requires IsWord(file) && At(s, f, file) && Stops(s, f + |file|)
    ensures IsToken(s, Range(f, f + |file|)) && WordText(s, Range(f, f + |file|)) == file
  {
    LexWord(s, f, file);
  }

  lemma WrapOne(c: Cmd<Range>, r: Redirect)
    ensures Wrap(c, [r]) == Redir(c, r.op, r.file)
  {
    assert [r][..0] == [];
  }

  lemma RedirGives(s: string, p: nat, op: char, file: string)
    requires IsOp(op) && IsWord(file) && At(s, p, OpText(op)) && At(s, p + |OpText(op)|, file)
    requires Stops(s, p + |OpText(op)| + |file|)
    ensures var f := p + |OpText(op)|;
            p <= |s| && ParseRedirs(s, p) == Redirs([Redirect(op, Range(f, f + |file|))], f + |file|)
  {
    hide Lex, ParseRedirs, OpText, IsOp, Sees, At, IsToken, WordText;
    var f := p + |OpText(op)|;
    AtHead(s, f, file);
    LexOp(s, p, op);
    LexWord(s, f, file);
    SkipNothing(s, f + |file|);
    NoRedirs(s, f + |file|);
    OneRedir(s, p, Redirect(op, Range(f, f + |file|)), f + |file|);
  }

  lemma OneRedir(s: string, p: nat, r: Redirect, e: nat)
    requires p <= |s| && (Sees(s, p, '<') || Sees(s, p, '>')) && Lex(s, p).kind == r.op
    requires Lex(s, Lex(s, p).next) == Token(WORD, r.file.q, r.file.eq, e) && ParseRedirs(s, e) == Redirs([], e)
    ensures ParseRedirs(s, p) == Redirs([r], e)
  {
    hide Lex, Sees;
    assert [r] + [] == [r];
  }

  /** The rendering of a tree starts with a word, a parenthesis, or not at all. */
  lemma RenderStarts(s: string, p: nat, t: Cmd<string>)
    requires Wellformed(t) && p <= |s| && At(s, p, Render(t)) && Stops(s, p + |Render(t)|)
    ensures p < |s| ==> !IsSpace(s[p]) && s[p] != '<' && s[p] != '>'
  {
    match t
    case Exec(argv) => StartsClean(s, p, argv);
    case Redir(_, _, _) => AtHead(s, p, Render(t));
    case Pipe(_, _) => AtHead(s, p, Render(t));
    case List(_, _) => AtHead(s, p, Render(t));
    case Back(_) => AtHead(s, p, Render(t));
  }

  /** A parenthesised tree at p, and where it ends. */
  lemma Paren(s: string, p: nat, t: Cmd<string>, more: string)
    requires Wellformed(t) && At(s, p, "(" + Render(t) + ")" + more)
    ensures var m := p + 1 + |Render(t)|;
            && At(s, p + 1, Render(t)) && m < |s| && s[p] == '(' && s[m] == ')' && At(s, m + 1, more)
            && Stops(s, m) && p + 1 < |s| && !IsSpace(s[p + 1])
  {
    hide Render;
    var r := Render(t);
    assert "(" + r + ")" + more == "(" + (r + (")" + more));
    AtSplit(s, p, "(", r + (")" + more));
    AtSplit(s, p + 1, r, ")" + more);
    AtSplit(s, p + 1 + |r|, ")", more);
    AtChar(s, p, '(');
    AtChar(s, p + 1 + |r|, ')');
    RenderStarts(s, p + 1, t);
  }

  /** Two parenthesised trees with an operator between them. */
  lemma Operands(s: string, p: nat, l: Cmd<string>, c: char, r: Cmd<string>)
    requires Wellformed(l) && Wellformed(r) && At(s, p, "(" + Render(l) + ")" + [c] + "(" + Render(r) + ")")
    ensures var m := p + 1 + |Render(l)|;
            var k := m + 3 + |Render(r)|;
            && k < |s| && s[p] == '(' && s[m] == ')' && s[m + 1] == c && s[m + 2] == '(' && s[k] == ')'
            && At(s, p + 1, Render(l)) && At(s, m + 3, Render(r)) && Stops(s, m) && Stops(s, k)
            && !IsSpace(s[p + 1]) && !IsSpace(s[m + 3])
  {
    hide Render, At, Stops, Wellformed;
    var x, y := Render(l), Render(r);
    assert "(" + x + ")" + [c] + "(" + y + ")" == "(" + x + ")" + ([c] + ("(" + y + ")"));
    Paren(s, p, l, [c] + ("(" + y + ")"));
    var m := p + 1 + |x|;
    AtSplit(s, m + 1, [c], "(" + y + ")");
    AtChar(s, m + 1, c);
    assert "(" + y + ")" == "(" + y + ")" + "";
    Paren(s, m + 2, r, "");
  }

  lemma {:induction false} LineRendered(s: string, p: nat, t: Cmd<string>)
    requires Wellformed(t) && p <= |s| && At(s, p, Render(t)) && Stops(s, p + |Render(t)|)
    ensures LineGives(s, p, p + |Render(t)|, t)
    decreases t, 1
  {
    hide LineGives, ExecGives, At, Stops, Wellformed, IsWord;
    match t
    case Exec(argv) => SimpleRendered(s, p, argv);
    case Redir(c, op, file) =>
      Parts(t);
      assert Render(t) == "(" + Render(c) + ")" + (OpText(op) + file);
      Paren(s, p, c, OpText(op) + file);
      LineRendered(s, p + 1, c);
      RedirRendered(s, p, p + 1 + |Render(c)|, c, op, file);
    case Pipe(_, _) => BothRendered(s, p, t);
    case List(_, _) => BothRendered(s, p, t);
    case Back(c) =>
      Parts(t);
      Paren(s, p, c, "&");
      LineRendered(s, p + 1, c);
      AtChar(s, p + 2 + |Render(c)|, '&');
      BackRendered(s, p, p + 1 + |Render(c)|, c);
  }

  /** The same for the two forms with a command on either side. */
  lemma {:induction false} BothRendered(s: string, p: nat, t: Cmd<string>)
    requires Wellformed(t) && p <= |s| && At(s, p, Render(t)) && Stops(s, p + |Render(t)|) && (t.Pipe? || t.List?)
    ensures LineGives(s, p, p + |Render(t)|, t)
    decreases t, 0
  {
    hide LineGives, ExecGives, At, Stops, Wellformed, IsWord;
    Parts(t);
    match t
    case Pipe(l, r) =>
      Operands(s, p, l, '|', r);
      LineRendered(s, p + 1, l);
      LineRendered(s, p + 4 + |Render(l)|, r);
      PipeRendered(s, p, p + 1 + |Render(l)|, p + 4 + |Render(l)| + |Render(r)|, l, r);
    case List(l, r) =>
      Operands(s, p, l, ';', r);
      LineRendered(s, p + 1, l);
      LineRendered(s, p + 4 + |Render(l)|, r);
      ListRendered(s, p, p + 1 + |Render(l)|, p + 4 + |Render(l)| + |Render(r)|, l, r);
  }

  lemma Parts(t: Cmd<string>)
    requires Wellformed(t)
    ensures match t
            case Exec(_) => true
            case Redir(c, op, file) => Wellformed(c) && IsOp(op) && IsWord(file)
            case Pipe(l, r) => Wellformed(l) && Wellformed(r)
            case List(l, r) => Wellformed(l) && Wellformed(r)
            case Back(c) => Wellformed(c)
  {
  }

  lemma SimpleRendered(s: string, p: nat, argv: seq<string>)
    requires Wellformed(Exec(argv)) && p <= |s| && At(s, p, Words(argv)) && Stops(s, p + |Words(argv)|)
    ensures LineGives(s, p, p + |Words(argv)|, Exec(argv))
  {
    hide Words, ParseExec, Text;
    ExecRendered(s, p, argv);
    LineOfExec(s, p, p + |Words(argv)|, Exec(argv));
  }

  lemma RedirRendered(s: string, p: nat, m: nat, c: Cmd<string>, op: char, file: string)
    requires p + 1 <= m < |s| && s[p] == '(' && s[m] == ')' && LineGives(s, p + 1, m, c) && !IsSpace(s[p + 1])
    requires IsOp(op) && IsWord(file) && At(s, m + 1, OpText(op) + file) && Stops(s, m + 1 + |OpText(op) + file|)
    ensures LineGives(s, p, m + 1 + |OpText(op) + file|, Redir(c, op, file))
  {
    hide LineGives, ExecGives;
    AtSplit(s, m + 1, OpText(op), file);
    BlockRedirGives(s, p, m, c, op, file);
    LineOfExec(s, p, m + 1 + |OpText(op)| + |file|, Redir(c, op, file));
  }

  lemma PipeRendered(s: string, p: nat, m: nat, k: nat, l: Cmd<string>, r: Cmd<string>)
    requires p + 1 <= m && m + 3 <= k < |s| && s[p] == '(' && s[m] == ')' && s[m + 1] == '|'
    requires s[m + 2] == '(' && s[k] == ')'
    requires LineGives(s, p + 1, m, l) && LineGives(s, m + 3, k, r) && !IsSpace(s[p + 1]) && !IsSpace(s[m + 3])
    requires Stops(s, k + 1)
    ensures LineGives(s, p, k + 1, Pipe(l, r))
  {
    BlockBoth(s, p, m, k, l, r);
    PipeLine(s, p, m, k, l, r);
  }

  lemma BlockBoth(s: string, p: nat, m: nat, k: nat, l: Cmd<string>, r: Cmd<string>)
    requires p + 1 <= m && m + 3 <= k < |s| && s[p] == '(' && s[m] == ')' && s[m + 2] == '(' && s[k] == ')'
    requires !IsSpace(s[m + 1]) && s[m + 1] != '<' && s[m + 1] != '>'
    requires LineGives(s, p + 1, m, l) && LineGives(s, m + 3, k, r) && !IsSpace(s[p + 1]) && !IsSpace(s[m + 3])
    requires Stops(s, k + 1)
    ensures ExecGives(s, p, m + 1, l) && ExecGives(s, m + 2, k + 1, r)
  {
    hide LineGives, ExecGives;
    BlockGives(s, p, m, l);
    BlockGives(s, m + 2, k, r);
  }

  lemma PipeLine(s: string, p: nat, m: nat, k: nat, l: Cmd<string>, r: Cmd<string>)
    requires m + 2 < |s| && s[m + 1] == '|' && s[m + 2] == '(' && p <= |s| && k < |s| && Stops(s, k + 1)
    requires ExecGives(s, p, m + 1, l) && ExecGives(s, m + 2, k + 1, r)
    ensures LineGives(s, p, k + 1, Pipe(l, r))
  {
    hide ParseExec, ParsePipe, ParseLine, Backs, Lex, Text;
    LexSymbol(s, m + 1, '|');
    SkipNothing(s, k + 1);
    var c, d := ParseExec(s, p).cmd, ParseExec(s, m + 2).cmd;
    PipeEnd(s, m + 2, d, k + 1);
    PipeMore(s, p, c, m + 1, d, k + 1);
    TextBoth(s, c, d);
    NoBacks(s, Pipe(c, d), k + 1);
    LineEnd(s, p, Pipe(c, d), k + 1, Pipe(c, d), k + 1);
  }

  lemma TextBoth(s: string, c: Cmd<Range>, d: Cmd<Range>)
    requires WordsOk(s, c) && WordsOk(s, d)
    ensures WordsOk(s, Pipe(c, d)) && Text(s, Pipe(c, d)) == Pipe(Text(s, c), Text(s, d))
    ensures WordsOk(s, List(c, d)) && Text(s, List(c, d)) == List(Text(s, c), Text(s, d))
  {
  }

  lemma ListRendered(s: string, p: nat, m: nat, k: nat, l: Cmd<string>, r: Cmd<string>)
    requires p + 1 <= m && m + 3 <= k < |s| && s[p] == '(' && s[m] == ')' && s[m + 1] == ';' && s[m + 2] == '(' &&
               s[k] == ')'
    requires LineGives(s, p + 1, m, l) && LineGives(s, m + 3, k, r) && !IsSpace(s[p + 1]) && !IsSpace(s[m + 3])
    requires Stops(s, k + 1)
    ensures LineGives(s, p, k + 1, List(l, r))
  {
    hide LineGives, ExecGives;
    BlockBoth(s, p, m, k, l, r);
    LineOfExec(s, m + 2, k + 1, r);
    ListLine(s, p, m, k, l, r);
  }

  lemma ListLine(s: string, p: nat, m: nat, k: nat, l: Cmd<string>, r: Cmd<string>)
    requires m + 2 < |s| && s[m + 1] == ';' && s[m + 2] == '(' && p <= |s| && k < |s| && Stops(s, k + 1)
    requires ExecGives(s, p, m + 1, l) && LineGives(s, m + 2, k + 1, r)
    ensures LineGives(s, p, k + 1, List(l, r))
  {
    hide ParseExec, ParsePipe, ParseLine, Backs, Lex, Text;
    LexSymbol(s, m + 1, ';');
    SkipNothing(s, m + 1);
    var c, d := ParseExec(s, p).cmd, ParseLine(s, m + 2).cmd;
    PipeEnd(s, p, c, m + 1);
    NoBacks(s, c, m + 1);
    LineMore(s, p, c, m + 1, c, m + 1, d, k + 1);
    TextBoth(s, c, d);
  }

  lemma BackRendered(s: string, p: nat, m: nat, c: Cmd<string>)
    requires p + 1 <= m && m + 1 < |s| && s[p] == '(' && s[m] == ')' && s[m + 1] == '&'
    requires LineGives(s, p + 1, m, c) && !IsSpace(s[p + 1]) && Stops(s, m + 2)
    ensures LineGives(s, p, m + 2, Back(c))
  {
    hide LineGives, ExecGives;
    BlockGives(s, p, m, c);
    BackLine(s, p, m, c);
  }

  lemma BackLine(s: string, p: nat, m: nat, c: Cmd<string>)
    requires m + 1 < |s| && s[m + 1] == '&' && p <= |s| && Stops(s, m + 2) && ExecGives(s, p, m + 1, c)
    ensures LineGives(s, p, m + 2, Back(c))
  {
    hide ParseExec, ParsePipe, ParseLine, Backs, Lex, Text;
    SkipNothing(s, m + 1);
    SkipNothing(s, m + 2);
    var d := ParseExec(s, p).cmd;
    PipeEnd(s, p, d, m + 1);
    BacksOne(s, d, m);
    LineEnd(s, p, d, m + 1, Back(d), m + 2);
    TextBack(s, d);
  }

  lemma TextBack(s: string, d: Cmd<Range>)
    requires WordsOk(s, d)
    ensures WordsOk(s, Back(d)) && Text(s, Back(d)) == Back(Text(s, d))
  {
  }

  lemma BacksOne(s: string, d: Cmd<Range>, m: nat)
    requires m + 1 < |s| && s[m + 1] == '&' && Stops(s, m + 2) && WordsOk(s, d)
    ensures Backs(s, d, m + 1) == (Back(d), m + 2)
  {
    LexSymbol(s, m + 1, '&');
    SkipNothing(s, m + 1);
    SkipNothing(s, m + 2);
    assert Backs(s, Back(d), m + 2) == (Back(d), m + 2);
  }

  /** Parsing what a command tree is written as gives the tree back, for every tree with proper
      words and fewer than MAXARGS of them per command. */
  lemma RoundTrip(t: Cmd<string>)
    requires Wellformed(t)
    ensures var r := ParseCmd(Render(t)); r.Ok? && Text(Render(t), r.cmd) == t
  {
    hide ParseLine, Text, Render;
    var s := Render(t);
    assert s[0..|s|] == s;
    LineRendered(s, 0, t);
    SkipNothing(s, |s|);
  }
}
