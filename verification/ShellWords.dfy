/** What the words of a parsed command are, and what nulterminate makes of the text:
    Lab3/xv6-riscv/user/sh.c:328-495. */
module ShellWords {
  import opened ShellGrammar
  import opened ShellRoundTrip

  /** A word of the text, as long as it can be. */
  predicate WordAt(t: string, k: Tok) {
    && k.q < k.eq <= |t| && (forall i :: k.q <= i < k.eq ==> WordChar(t[i]))
    && !WordChar(At(t, k.eq))
  }

  /** The tokens of c are whole words, and no command has MAXARGS of them. */
  predicate WellMade(t: string, c: Cmd<Tok>) {
    match c
    case Exec(argv) => |argv| < MAXARGS && forall i :: 0 <= i < |argv| ==> WordAt(t, argv[i])
    case Redir(d, f, _) => WellMade(t, d) && WordAt(t, f)
    case Pipe(l, r) => WellMade(t, l) && WellMade(t, r)
    case List(l, r) => WellMade(t, l) && WellMade(t, r)
    case Back(d) => WellMade(t, d)
  }

  predicate RedirsMade(t: string, rs: seq<Redirection<Tok>>) { forall i :: 0 <= i < |rs| ==> WordAt(t, rs[i].file) }

  lemma {:induction false} WordEndWhole(t: string, s: nat)
    requires s <= |t|
    ensures forall i :: s <= i < WordEnd(t, s) ==> WordChar(t[i])
    ensures !WordChar(At(t, WordEnd(t, s)))
    decreases |t| - s
  {
    if s < |t| && WordChar(t[s]) { WordEndWhole(t, s + 1); }
  }

  /** The token that gettoken calls 'a'. */
  lemma TokenWhole(t: string, s: nat)
    requires s <= |t| && Plain(t) && GetToken(t, s).ret == 'a'
    ensures WordAt(t, Tok(GetToken(t, s).q, GetToken(t, s).eq))
  {
    var q := Skip(t, s);
    WordEndWhole(t, q);
    assert q < |t| && t[q] in t;
  }

  lemma {:induction false} WrapMade(t: string, c: Cmd<Tok>, rs: seq<Redirection<Tok>>)
    requires WellMade(t, c) && RedirsMade(t, rs)
    ensures WellMade(t, Wrap(c, rs))
    decreases |rs|
  {
    if rs != [] { WrapMade(t, c, rs[..|rs| - 1]); }
  }

  lemma {:induction false} RedirsWords(t: string, s: nat)
    requires s <= |t| && Plain(t) && ReadRedirs(t, s).Redirs?
    ensures RedirsMade(t, ReadRedirs(t, s).list)
    decreases |t| - s
  {
    if Peek(t, s, "<>") {
      var op := GetToken(t, Skip(t, s));
      TokenWhole(t, op.pos);
      var w := GetToken(t, op.pos);
      RedirsWords(t, w.pos);
      hide Peek, GetToken, Skip, WordAt;
    }
  }

  lemma {:induction false} ArgsWords(t: string, s: nat, argv: seq<Tok>, rs: seq<Redirection<Tok>>)
    requires s <= |t| && Plain(t) && ParseArgs(t, s, argv, rs).Ok?
    requires WellMade(t, Exec(argv)) && RedirsMade(t, rs)
    ensures WellMade(t, ParseArgs(t, s, argv, rs).cmd)
    decreases |t| - s
  {
    hide Peek, GetToken, Skip, WordAt, Wrap;
    var k := GetToken(t, Skip(t, s));
    if Peek(t, s, "|)&;") || k.ret == '\0' {
      WrapMade(t, Exec(argv), rs);
    } else {
      TokenWhole(t, Skip(t, s));
      RedirsWords(t, k.pos);
      TokenGrows(t, s);
      ArgsWords(t, ReadRedirs(t, k.pos).pos, argv + [Tok(k.q, k.eq)], rs + ReadRedirs(t, k.pos).list);
    }
  }

  /** gettoken moves on unless it is at the end. */
  lemma TokenGrows(t: string, s: nat)
    requires s <= |t| && GetToken(t, Skip(t, s)).ret != '\0'
    ensures GetToken(t, Skip(t, s)).pos > s
  {
  }

  lemma {:induction false} ExecWords(t: string, s: nat)
    requires s <= |t| && Plain(t) && ParseExec(t, s).Ok?
    ensures WellMade(t, ParseExec(t, s).cmd)
    decreases |t| - s, 1
  {
    hide ParseBlock, ParseArgs, ReadRedirs, GetToken;
    if Peek(t, s, "(") {
      BlockWords(t, Skip(t, s));
    } else {
      var rs := ReadRedirs(t, Skip(t, s));
      RedirsWords(t, Skip(t, s));
      ArgsWords(t, rs.pos, [], rs.list);
    }
  }

  lemma {:induction false} BlockWords(t: string, s: nat)
    requires s <= |t| && Plain(t) && ParseBlock(t, s).Ok?
    ensures WellMade(t, ParseBlock(t, s).cmd)
    decreases |t| - s, 0
  {
    PeekedMoves(t, s, "(");
    hide ParseLine, ReadRedirs, GetToken, Skip, Peek, Wrap, WellMade;
    var l := ParseLine(t, GetToken(t, Skip(t, s)).pos);
    LineWords(t, GetToken(t, Skip(t, s)).pos);
    var p := GetToken(t, Skip(t, l.pos)).pos;
    RedirsWords(t, p);
    WrapMade(t, l.cmd, ReadRedirs(t, p).list);
  }

  /** A mark that peek has seen is passed by gettoken. */
  lemma PeekedMoves(t: string, s: nat, toks: string)
    requires s <= |t| && Peek(t, s, toks)
    ensures GetToken(t, Skip(t, s)).pos > s
  {
  }

  lemma {:induction false} PipeWords(t: string, s: nat)
    requires s <= |t| && Plain(t) && ParsePipe(t, s).Ok?
    ensures WellMade(t, ParsePipe(t, s).cmd)
    decreases |t| - s, 2
  {
    hide ParseExec, GetToken, Skip, Peek;
    ExecWords(t, s);
    var l := ParseExec(t, s);
    if Peek(t, l.pos, "|") {
      PeekedMoves(t, l.pos, "|");
      PipeWords(t, GetToken(t, Skip(t, l.pos)).pos);
    }
  }

  lemma {:induction false} BacksWords(t: string, s: nat, c: Cmd<Tok>)
    requires s <= |t| && WellMade(t, c)
    ensures WellMade(t, ReadBacks(t, s, c).cmd)
    decreases |t| - s
  {
    if Peek(t, s, "&") { BacksWords(t, GetToken(t, Skip(t, s)).pos, Back(c)); }
  }

  lemma {:induction false} LineWords(t: string, s: nat)
    requires s <= |t| && Plain(t) && ParseLine(t, s).Ok?
    ensures WellMade(t, ParseLine(t, s).cmd)
    decreases |t| - s, 3
  {
    hide ParsePipe, ReadBacks, GetToken, Skip, Peek;
    var p := ParsePipe(t, s);
    PipeWords(t, s);
    BacksWords(t, p.pos, p.cmd);
    var l := ReadBacks(t, p.pos, p.cmd);
    if Peek(t, l.pos, ";") {
      PeekedMoves(t, l.pos, ";");
      LineWords(t, GetToken(t, Skip(t, l.pos)).pos);
    }
  }

  // ---- a parsed command can be printed ----

  lemma {:induction false} MadeWritable(t: string, c: Cmd<Tok>)
    requires WellMade(t, c)
    ensures TokensIn(t, c) && Writable(Meaning(t, c))
    decreases c
  {
    match c
    case Exec(argv) => forall i | 0 <= i < |argv| ensures Word(Spell(t, argv[i])) { assert WordAt(t, argv[i]); }
    case Redir(d, f, _) => MadeWritable(t, d);
    case Pipe(l, r) => MadeWritable(t, l); MadeWritable(t, r);
    case List(l, r) => MadeWritable(t, l); MadeWritable(t, r);
    case Back(d) => MadeWritable(t, d);
  }

  /** Whatever line parsecmd accepts, printing the command and parsing again gives the same
      command: parsing is onto the commands that can be written down, and no two of them
      print alike. */
  lemma ParseThenPrint(t: string)
    requires Plain(t) && ParseCmd(t).Ok?
    ensures TokensIn(t, ParseCmd(t).cmd)
    ensures var c := Meaning(t, ParseCmd(t).cmd);
            ParseCmd(Print(c)).Ok? && Says(Print(c), ParseCmd(Print(c)).cmd, c)
  {
    LineWords(t, 0);
    MadeWritable(t, ParseCmd(t).cmd);
    PrintThenParse(Meaning(t, ParseCmd(t).cmd));
  }
}
