/** The command language of Lab3/xv6-riscv/user/sh.c: tokens, and what parsecmd makes of
    a line, as functions of the text and the position reached. */
module ShellGrammar {

  const MAXARGS := 10

  /** A command over words of type T: the tokens of the text, or the strings they spell. */
  datatype Cmd<T> =
    | Exec(argv: seq<T>)
    | Redir(cmd: Cmd<T>, file: T, mode: Mode)
    | Pipe(left: Cmd<T>, right: Cmd<T>)
    | List(left: Cmd<T>, right: Cmd<T>)
    | Back(cmd: Cmd<T>)

  /** O_RDONLY on descriptor 0; O_WRONLY|O_CREATE|O_TRUNC and O_WRONLY|O_CREATE on 1. */
  datatype Mode = Read | Truncate | Append

  /** The pointers q and eq of a word. */
  datatype Tok = Tok(q: nat, eq: nat)

  datatype Parsed = Ok(cmd: Cmd<Tok>, pos: nat) | Panic(msg: string)

  // ---- characters ----

  predicate White(c: char) { c == ' ' || c == '\t' || c == '\r' || c == '\n' || c == '\U{0B}' }

  predicate Symbol(c: char) { c in "<|>&;()" }

  predicate WordChar(c: char) { c != '\0' && !White(c) && !Symbol(c) }

  /** *s, which is NUL at es. */
  function At(t: string, s: nat): char { if s < |t| then t[s] else '\0' }

  /** No NUL before es. */
  predicate Plain(t: string) { '\0' !in t }

  // ---- tokens ----

  function Skip(t: string, s: nat): (r: nat)
    requires s <= |t|
    ensures s <= r <= |t| && !White(At(t, r))
    ensures !White(At(t, s)) ==> r == s
    decreases |t| - s
  {
    if s < |t| && White(t[s]) then Skip(t, s + 1) else s
  }

  function WordEnd(t: string, s: nat): (r: nat)
    requires s <= |t|
    ensures s <= r <= |t|
    decreases |t| - s
  {
    if s < |t| && WordChar(t[s]) then WordEnd(t, s + 1) else s
  }

  /** What gettoken returns, and where it leaves *ps. */
  datatype Token = Token(ret: char, q: nat, eq: nat, pos: nat)

  function GetToken(t: string, s: nat): (k: Token)
    requires s <= |t|
    ensures s <= k.q <= k.eq <= k.pos <= |t|
    ensures At(t, k.q) != '\0' ==> k.q < k.eq
  {
    var q := Skip(t, s);
    var c := At(t, q);
    if c == '\0' then Token('\0', q, q, Skip(t, q))
    else if c == '|' || c == '(' || c == ')' || c == ';' || c == '&' || c == '<' then
      Token(c, q, q + 1, Skip(t, q + 1))
    else if c == '>' then
      if At(t, q + 1) == '>' then Token('+', q, q + 2, Skip(t, q + 2)) else Token('>', q, q + 1, Skip(t, q + 1))
    else Token('a', q, WordEnd(t, q), Skip(t, WordEnd(t, q)))
  }

  /** peek: is the next character, after white space, one of toks? */
  predicate Peek(t: string, s: nat, toks: string)
    requires s <= |t|
  {
    At(t, Skip(t, s)) != '\0' && At(t, Skip(t, s)) in toks
  }

  // ---- commands ----

  datatype Redirection<T> = Redirection(file: T, mode: Mode)

  datatype Redirs = Redirs(list: seq<Redirection<Tok>>, pos: nat) | RedirsPanic

  function ModeOf(tok: char): Mode { if tok == '<' then Read else if tok == '>' then Truncate else Append }

  /** The redirections that parseredirs reads. */
  function ReadRedirs(t: string, s: nat): (r: Redirs)
    requires s <= |t|
    ensures r.Redirs? ==> s <= r.pos <= |t|
    decreases |t| - s
  {
    if !Peek(t, s, "<>") then Redirs([], Skip(t, s))
    else
      var op := GetToken(t, Skip(t, s));
      var w := GetToken(t, op.pos);
      if w.ret != 'a' then RedirsPanic
      else
        var rest := ReadRedirs(t, w.pos);
        if rest.RedirsPanic? then rest
        else Redirs([Redirection(Tok(w.q, w.eq), ModeOf(op.ret))] + rest.list, rest.pos)
  }

  /** redircmd, once for each redirection, the last outermost. */
  function Wrap(c: Cmd<Tok>, rs: seq<Redirection<Tok>>): Cmd<Tok>
    decreases |rs|
  {
    if rs == [] then c
    else
      var n := |rs| - 1;
      Redir(Wrap(c, rs[..n]), rs[n].file, rs[n].mode)
  }

  /** The loop of parseexec, with the arguments and redirections read so far. */
  function ParseArgs(t: string, s: nat, argv: seq<Tok>, rs: seq<Redirection<Tok>>): (r: Parsed)
    requires s <= |t|
    ensures r.Ok? ==> s <= r.pos <= |t|
    decreases |t| - s
  {
    if Peek(t, s, "|)&;") then Ok(Wrap(Exec(argv), rs), Skip(t, s))
    else
      var k := GetToken(t, Skip(t, s));
      if k.ret == '\0' then Ok(Wrap(Exec(argv), rs), k.pos)
      else if k.ret != 'a' then Panic("syntax")
      else if |argv| + 1 >= MAXARGS then Panic("too many args")
      else
        var more := ReadRedirs(t, k.pos);
        if more.RedirsPanic? then Panic("missing file for redirection")
        else ParseArgs(t, more.pos, argv + [Tok(k.q, k.eq)], rs + more.list)
  }

  function ParseExec(t: string, s: nat): (r: Parsed)
    requires s <= |t|
    ensures r.Ok? ==> s <= r.pos <= |t|
    decreases |t| - s, 1
  {
    if Peek(t, s, "(") then ParseBlock(t, Skip(t, s))
    else
      var rs := ReadRedirs(t, Skip(t, s));
      if rs.RedirsPanic? then Panic("missing file for redirection")
      else ParseArgs(t, rs.pos, [], rs.list)
  }

  function ParseBlock(t: string, s: nat): (r: Parsed)
    requires s <= |t|
    ensures r.Ok? ==> s <= r.pos <= |t|
    decreases |t| - s, 0
  {
    if !Peek(t, s, "(") then Panic("parseblock")
    else
      var l := ParseLine(t, GetToken(t, Skip(t, s)).pos);
      if l.Panic? then l
      else if !Peek(t, l.pos, ")") then Panic("syntax - missing )")
      else
        var rs := ReadRedirs(t, GetToken(t, Skip(t, l.pos)).pos);
        if rs.RedirsPanic? then Panic("missing file for redirection")
        else Ok(Wrap(l.cmd, rs.list), rs.pos)
  }

  function ParsePipe(t: string, s: nat): (r: Parsed)
    requires s <= |t|
    ensures r.Ok? ==> s <= r.pos <= |t|
    decreases |t| - s, 2
  {
    var l := ParseExec(t, s);
    if l.Panic? then l
    else if !Peek(t, l.pos, "|") then Ok(l.cmd, Skip(t, l.pos))
    else
      var r := ParsePipe(t, GetToken(t, Skip(t, l.pos)).pos);
      if r.Panic? then r else Ok(Pipe(l.cmd, r.cmd), r.pos)
  }

  /** The loop of parseline over '&'. */
  function ReadBacks(t: string, s: nat, c: Cmd<Tok>): (r: Parsed)
    requires s <= |t|
    ensures r.Ok? && s <= r.pos <= |t|
    decreases |t| - s
  {
    if Peek(t, s, "&") then ReadBacks(t, GetToken(t, Skip(t, s)).pos, Back(c)) else Ok(c, Skip(t, s))
  }

  function ParseLine(t: string, s: nat): (r: Parsed)
    requires s <= |t|
    ensures r.Ok? ==> s <= r.pos <= |t|
    decreases |t| - s, 3
  {
    var p := ParsePipe(t, s);
    if p.Panic? then p
    else
      var l := ReadBacks(t, p.pos, p.cmd);
      if !Peek(t, l.pos, ";") then Ok(l.cmd, Skip(t, l.pos))
      else
        var r := ParseLine(t, GetToken(t, Skip(t, l.pos)).pos);
        if r.Panic? then r else Ok(List(l.cmd, r.cmd), r.pos)
  }

  function ParseCmd(t: string): (r: Parsed)
  {
    var l := ParseLine(t, 0);
    if l.Panic? then l
    else if Skip(t, l.pos) != |t| then Panic("syntax")
    else Ok(l.cmd, |t|)
  }

  // ---- one step of each parser, where no white space is in the way ----

  /** A punctuation mark is a token, and it is what peek sees. */
  lemma Mark(t: string, s: nat)
    requires s <= |t| && At(t, s) in "|();&<"
    ensures s < |t| && GetToken(t, s) == Token(At(t, s), s, s + 1, Skip(t, s + 1))
  {
  }

  lemma Peeks(t: string, s: nat, toks: string)
    requires s <= |t| && !White(At(t, s))
    ensures Skip(t, s) == s && (Peek(t, s, toks) <==> At(t, s) != '\0' && At(t, s) in toks)
  {
  }

  lemma NoRedirs(t: string, s: nat)
    requires s <= |t| && !White(At(t, s)) && At(t, s) !in "<>"
    ensures ReadRedirs(t, s) == Redirs([], s)
  {
  }

  lemma BlockStep(t: string, s: nat, e: nat, d: Cmd<Tok>, rs: Redirs)
    requires s < e < |t| && At(t, s) == '(' && !White(At(t, s + 1)) && At(t, e) == ')' && !White(At(t, e + 1))
    requires ParseLine(t, s + 1) == Ok(d, e) && ReadRedirs(t, e + 1) == rs && rs.Redirs?
    ensures ParseExec(t, s) == Ok(Wrap(d, rs.list), rs.pos)
  {
    hide ParseLine, ReadRedirs, GetToken, Skip, Peek, Wrap;
    Mark(t, s);
    Mark(t, e);
    Peeks(t, s, "(");
    Peeks(t, s + 1, "");
    Peeks(t, e, ")");
    Peeks(t, e + 1, "");
  }

  lemma PipeEnd(t: string, s: nat, x: Cmd<Tok>, p: nat)
    requires s <= |t| && ParseExec(t, s) == Ok(x, p) && !White(At(t, p)) && At(t, p) != '|'
    ensures ParsePipe(t, s) == Ok(x, p)
  {
    hide ParseExec, GetToken, Skip, Peek;
    Peeks(t, p, "|");
  }

  lemma PipeMore(t: string, s: nat, x: Cmd<Tok>, p: nat, y: Cmd<Tok>, e: nat)
    requires s <= |t| && ParseExec(t, s) == Ok(x, p) && At(t, p) == '|' && p < |t| && !White(At(t, p + 1))
    requires ParsePipe(t, p + 1) == Ok(y, e)
    ensures ParsePipe(t, s) == Ok(Pipe(x, y), e)
  {
    hide ParseExec, GetToken, Skip, Peek;
    Mark(t, p);
    Peeks(t, p, "|");
    Peeks(t, p + 1, "");
  }

  lemma LineEnd(t: string, s: nat, x: Cmd<Tok>, p: nat)
    requires s <= |t| && ParsePipe(t, s) == Ok(x, p) && !White(At(t, p)) && At(t, p) !in "&;"
    ensures ParseLine(t, s) == Ok(x, p)
  {
    hide ParsePipe, GetToken, Skip, Peek;
    Peeks(t, p, "&");
    Peeks(t, p, ";");
  }

  lemma LineBack(t: string, s: nat, x: Cmd<Tok>, p: nat)
    requires s <= |t| && ParsePipe(t, s) == Ok(x, p) && At(t, p) == '&' && p < |t|
    requires !White(At(t, p + 1)) && At(t, p + 1) !in "&;"
    ensures ParseLine(t, s) == Ok(Back(x), p + 1)
  {
    hide ParsePipe, GetToken, Skip, Peek;
    Mark(t, p);
    Peeks(t, p, "&");
    Peeks(t, p + 1, "&");
    Peeks(t, p + 1, ";");
    assert ReadBacks(t, p + 1, Back(x)) == Ok(Back(x), p + 1);
  }

  lemma LineMore(t: string, s: nat, x: Cmd<Tok>, p: nat, y: Cmd<Tok>, e: nat)
    requires s <= |t| && ParsePipe(t, s) == Ok(x, p) && At(t, p) == ';' && p < |t| && !White(At(t, p + 1))
    requires ParseLine(t, p + 1) == Ok(y, e)
    ensures ParseLine(t, s) == Ok(List(x, y), e)
  {
    hide ParsePipe, GetToken, Skip, Peek;
    Mark(t, p);
    Peeks(t, p, "&");
    Peeks(t, p, ";");
    Peeks(t, p + 1, "");
  }

  lemma PipePanic(t: string, s: nat)
    requires s <= |t| && ParseExec(t, s).Panic?
    ensures ParsePipe(t, s).Panic?
  {
    hide ParseExec, GetToken, Skip, Peek;
  }

  lemma LinePanic(t: string, s: nat)
    requires s <= |t| && ParsePipe(t, s).Panic?
    ensures ParseLine(t, s).Panic?
  {
    hide ParsePipe, GetToken, Skip, Peek;
  }

  /** A command ends at a parenthesis or at the end of the text. */
  predicate Stops(t: string, s: nat) { At(t, s) == ')' || (s == |t| && At(t, s) == '\0') }

  lemma ArgsEnd(t: string, s: nat, argv: seq<Tok>)
    requires s <= |t| && Stops(t, s)
    ensures ParseArgs(t, s, argv, []) == Ok(Exec(argv), s)
  {
    Peeks(t, s, "|)&;");
    assert Wrap(Exec(argv), []) == Exec(argv);
  }

  /** A word from s to e, and one blank, are taken off the arguments. */
  lemma ArgsStep(t: string, s: nat, e: nat, argv: seq<Tok>)
    requires s < e < |t| && WordChar(At(t, s)) && At(t, e) == ' ' && !White(At(t, e + 1)) && At(t, e + 1) !in "<>"
    requires GetToken(t, s) == Token('a', s, e, Skip(t, e)) && |argv| + 1 < MAXARGS
    ensures ParseArgs(t, s, argv, []) == ParseArgs(t, e + 1, argv + [Tok(s, e)], [])
  {
    Peeks(t, s, "|)&;");
    assert Skip(t, e) == e + 1 by { Peeks(t, e + 1, ""); }
    hide GetToken, Skip, Peek, Wrap;
    NoRedirs(t, e + 1);
    assert [] + ReadRedirs(t, e + 1).list == [];
  }

  /** The word that makes MAXARGS of them. */
  lemma ArgsFull(t: string, s: nat, e: nat, argv: seq<Tok>)
    requires s < e < |t| && WordChar(At(t, s)) && |argv| + 1 >= MAXARGS
    requires GetToken(t, s) == Token('a', s, e, Skip(t, e))
    ensures ParseArgs(t, s, argv, []) == Panic("too many args")
  {
    Peeks(t, s, "|)&;");
    hide GetToken, Skip, Peek, Wrap;
  }

  lemma ExecStart(t: string, s: nat)
    requires s <= |t| && !White(At(t, s)) && At(t, s) !in "<>("
    ensures ParseExec(t, s) == ParseArgs(t, s, [], [])
  {
    hide ParseArgs, GetToken, Skip, Peek;
    Peeks(t, s, "(");
    NoRedirs(t, s);
  }
}
