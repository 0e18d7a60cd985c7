/** A printed command is parsed back: parsecmd of Lab3/xv6-riscv/user/sh.c against a printer
    that puts every part of a command in parentheses. */
module ShellRoundTrip {
  import opened ShellGrammar

  // ---- commands that can be written down ----

  predicate Word(w: string) { w != "" && forall i :: 0 <= i < |w| ==> WordChar(w[i]) }

  /** At most MAXARGS - 1 arguments to a command, and words that are words. */
  predicate Writable(c: Cmd<string>) {
    match c
    case Exec(argv) => |argv| < MAXARGS && forall i :: 0 <= i < |argv| ==> Word(argv[i])
    case Redir(d, f, _) => Writable(d) && Word(f)
    case Pipe(l, r) => Writable(l) && Writable(r)
    case List(l, r) => Writable(l) && Writable(r)
    case Back(d) => Writable(d)
  }

  function PrintArgs(argv: seq<string>): string {
    if argv == [] then "" else argv[0] + " " + PrintArgs(argv[1..])
  }

  function PrintMode(m: Mode): string {
    match m case Read => "<" case Truncate => ">" case Append => ">>"
  }

  function Print(c: Cmd<string>): string {
    match c
    case Exec(argv) => PrintArgs(argv)
    case Redir(d, f, m) => "(" + Print(d) + ")" + (PrintMode(m) + f)
    case Pipe(l, r) => "(" + Print(l) + ")" + ("|" + ("(" + Print(r) + ")"))
    case List(l, r) => "(" + Print(l) + ")" + (";" + ("(" + Print(r) + ")"))
    case Back(d) => "(" + Print(d) + ")" + "&"
  }

  // ---- what a parsed command says ----

  predicate InText(t: string, k: Tok) { k.q <= k.eq <= |t| }

  predicate TokensIn(t: string, c: Cmd<Tok>) {
    match c
    case Exec(argv) => forall i :: 0 <= i < |argv| ==> InText(t, argv[i])
    case Redir(d, f, _) => TokensIn(t, d) && InText(t, f)
    case Pipe(l, r) => TokensIn(t, l) && TokensIn(t, r)
    case List(l, r) => TokensIn(t, l) && TokensIn(t, r)
    case Back(d) => TokensIn(t, d)
  }

  function Spell(t: string, k: Tok): string
    requires InText(t, k)
  {
    t[k.q..k.eq]
  }

  function Meaning(t: string, c: Cmd<Tok>): Cmd<string>
    requires TokensIn(t, c)
  {
    match c
    case Exec(argv) => Exec(seq(|argv|, i requires 0 <= i < |argv| => Spell(t, argv[i])))
    case Redir(d, f, m) => Redir(Meaning(t, d), Spell(t, f), m)
    case Pipe(l, r) => Pipe(Meaning(t, l), Meaning(t, r))
    case List(l, r) => List(Meaning(t, l), Meaning(t, r))
    case Back(d) => Back(Meaning(t, d))
  }

  /** c is parsed from the text as d. */
  predicate Says(t: string, c: Cmd<Tok>, d: Cmd<string>) {
    TokensIn(t, c) && Meaning(t, c) == d
  }

  // ---- reading what was printed ----

  /** The text has w at s. */
  predicate Has(t: string, s: nat, w: string) { s + |w| <= |t| && t[s..s + |w|] == w }

  lemma HasParts(t: string, s: nat, u: string, w: string)
    requires Has(t, s, u + w)
    ensures Has(t, s, u) && Has(t, s + |u|, w)
  {
    var x := t[s..s + |u + w|];
    assert t[s..s + |u|] == x[..|u|] && t[s + |u|..s + |u| + |w|] == x[|u|..];
  }

  lemma HasChar(t: string, s: nat, w: string, i: nat)
    requires Has(t, s, w) && i < |w|
    ensures At(t, s + i) == w[i]
  {
    assert t[s..s + |w|][i] == t[s + i];
  }

  lemma {:induction false} WordEnds(t: string, s: nat, w: string)
    requires Has(t, s, w) && (forall i :: 0 <= i < |w| ==> WordChar(w[i])) && !WordChar(At(t, s + |w|))
    ensures WordEnd(t, s) == s + |w|
    decreases |w|
  {
    if w == "" {
      assert WordEnd(t, s) == s;
    } else {
      HasChar(t, s, w, 0);
      assert w == w[..1] + w[1..];
      HasParts(t, s, w[..1], w[1..]);
      WordEnds(t, s + 1, w[1..]);
    }
  }

  /** A word is one token. */
  lemma WordToken(t: string, s: nat, w: string)
    requires Has(t, s, w) && Word(w) && !WordChar(At(t, s + |w|))
    ensures GetToken(t, s) == Token('a', s, s + |w|, Skip(t, s + |w|))
    ensures Spell(t, Tok(s, s + |w|)) == w && WordChar(At(t, s))
  {
    HasChar(t, s, w, 0);
    WordEnds(t, s, w);
    hide WordEnd;
  }

  /** Arguments, or the end of a command, are not white space and no redirection. */
  lemma ArgsStart(t: string, s: nat, more: seq<string>)
    requires Has(t, s, PrintArgs(more)) && Stops(t, s + |PrintArgs(more)|)
    requires forall i :: 0 <= i < |more| ==> Word(more[i])
    ensures !White(At(t, s)) && At(t, s) !in "<>("
  {
    if more != [] { HasChar(t, s, PrintArgs(more), 0); }
  }

  lemma FirstArg(t: string, s: nat, more: seq<string>)
    requires more != [] && Has(t, s, PrintArgs(more)) && Word(more[0])
    ensures Has(t, s, more[0]) && At(t, s + |more[0]|) == ' ' && s + |more[0]| < |t|
    ensures Has(t, s + |more[0]| + 1, PrintArgs(more[1..]))
  {
    HasParts(t, s, more[0] + " ", PrintArgs(more[1..]));
    HasParts(t, s, more[0], " ");
    HasChar(t, s + |more[0]|, " ", 0);
  }

  lemma MeaningMore(t: string, argv: seq<Tok>, k: Tok, more: seq<string>)
    requires TokensIn(t, Exec(argv)) && InText(t, k)
    ensures TokensIn(t, Exec(argv + [k]))
    ensures Meaning(t, Exec(argv + [k])).argv + more == Meaning(t, Exec(argv)).argv + ([Spell(t, k)] + more)
  {
    assert Meaning(t, Exec(argv + [k])).argv == Meaning(t, Exec(argv)).argv + [Spell(t, k)];
  }

  /** The arguments that follow argv, up to the end of the command. */
  lemma {:induction false} ReadArgs(t: string, s: nat, argv: seq<Tok>, more: seq<string>) returns (c: Cmd<Tok>)
    requires Has(t, s, PrintArgs(more)) && Stops(t, s + |PrintArgs(more)|)
    requires |argv| + |more| < MAXARGS && forall i :: 0 <= i < |more| ==> Word(more[i])
    requires TokensIn(t, Exec(argv))
    ensures ParseArgs(t, s, argv, []) == Ok(c, s + |PrintArgs(more)|)
    ensures Says(t, c, Exec(Meaning(t, Exec(argv)).argv + more))
    decreases |more|
  {
    hide ParseArgs, GetToken, Skip, Spell;
    if more == [] {
      c := Exec(argv);
      ArgsEnd(t, s, argv);
      assert Meaning(t, c).argv + more == Meaning(t, c).argv;
    } else {
      var e := s + |more[0]|;
      FirstArg(t, s, more);
      WordToken(t, s, more[0]);
      ArgsStart(t, e + 1, more[1..]);
      ArgsStep(t, s, e, argv);
      MeaningMore(t, argv, Tok(s, e), more[1..]);
      assert [more[0]] + more[1..] == more;
      c := ReadArgs(t, e + 1, argv + [Tok(s, e)], more[1..]);
    }
  }

  /** "(c)" is in the text at s. */
  lemma HasBlock(t: string, s: nat, c: Cmd<string>)
    requires Writable(c) && Has(t, s, "(" + Print(c) + ")")
    ensures At(t, s) == '(' && Has(t, s + 1, Print(c)) && At(t, s + 1 + |Print(c)|) == ')' && s + 1 + |Print(c)| < |t|
    ensures !White(At(t, s + 1))
  {
    HasParts(t, s, "(" + Print(c), ")");
    HasParts(t, s, "(", Print(c));
    HasChar(t, s, "(", 0);
    HasChar(t, s + |Print(c)| + 1, ")", 0);
    PrintStart(t, s + 1, c);
  }

  /** A printed command does not start with white space. */
  lemma PrintStart(t: string, s: nat, c: Cmd<string>)
    requires Writable(c) && Has(t, s, Print(c)) && Stops(t, s + |Print(c)|)
    ensures !White(At(t, s))
  {
    if c.Exec? {
      ArgsStart(t, s, c.argv);
    } else {
      HasChar(t, s, Print(c), 0);
    }
  }

  /** "(c)", and the redirections after it. */
  lemma ReadBlock(t: string, s: nat, c: Cmd<string>, rs: Redirs) returns (d: Cmd<Tok>)
    requires Writable(c) && Has(t, s, "(" + Print(c) + ")")
    requires !White(At(t, s + |Print(c)| + 2)) && ReadRedirs(t, s + |Print(c)| + 2) == rs && rs.Redirs?
    ensures Says(t, d, c) && ParseExec(t, s) == Ok(Wrap(d, rs.list), rs.pos)
    decreases c, 3
  {
    hide ParseLine, ParseExec, ReadRedirs, Wrap, Print, Writable;
    HasBlock(t, s, c);
    d := ReadLine(t, s + 1, c);
    BlockStep(t, s, s + |Print(c)| + 1, d, rs);
  }

  /** A block with no redirection after it. */
  lemma ReadPlainBlock(t: string, s: nat, c: Cmd<string>) returns (d: Cmd<Tok>)
    requires Writable(c) && Has(t, s, "(" + Print(c) + ")")
    requires var x := At(t, s + |Print(c)| + 2); !White(x) && x !in "<>"
    ensures Says(t, d, c) && ParseExec(t, s) == Ok(d, s + |Print(c)| + 2)
    decreases c, 4
  {
    hide ParseExec, ReadRedirs, Print, Writable;
    NoRedirs(t, s + |Print(c)| + 2);
    d := ReadBlock(t, s, c, Redirs([], s + |Print(c)| + 2));
  }

  /** A printed command is one command line. */
  lemma ReadLine(t: string, s: nat, c: Cmd<string>) returns (d: Cmd<Tok>)
    requires Writable(c) && Has(t, s, Print(c)) && Stops(t, s + |Print(c)|)
    ensures ParseLine(t, s) == Ok(d, s + |Print(c)|) && Says(t, d, c)
    decreases c, 2
  {
    hide ParseLine, ParsePipe, ParseExec, ParseArgs;
    match c
    case Exec(argv) => d := ReadSimple(t, s, argv);
    case Redir(b, f, m) => d := ReadRedirected(t, s, b, f, m);
    case Pipe(l, r) => d := ReadPipe(t, s, l, r);
    case List(l, r) => d := ReadList(t, s, l, r);
    case Back(b) => d := ReadBack(t, s, b);
  }

  lemma ReadSimple(t: string, s: nat, argv: seq<string>) returns (d: Cmd<Tok>)
    requires Writable(Exec(argv)) && Has(t, s, PrintArgs(argv)) && Stops(t, s + |PrintArgs(argv)|)
    ensures ParseLine(t, s) == Ok(d, s + |PrintArgs(argv)|) && Says(t, d, Exec(argv))
  {
    hide ParseLine, ParsePipe, ParseExec, ParseArgs, PrintArgs;
    ArgsStart(t, s, argv);
    d := ReadArgs(t, s, [], argv);
    assert Meaning(t, Exec([])).argv + argv == argv;
    ExecStart(t, s);
    PipeEnd(t, s, d, s + |PrintArgs(argv)|);
    LineEnd(t, s, d, s + |PrintArgs(argv)|);
  }

  lemma ReadBack(t: string, s: nat, b: Cmd<string>) returns (d: Cmd<Tok>)
    requires var c := Back(b); Writable(c) && Has(t, s, Print(c)) && Stops(t, s + |Print(c)|)
    ensures ParseLine(t, s) == Ok(d, s + |Print(Back(b))|) && Says(t, d, Back(b))
    decreases Back(b), 1
  {
    hide ParseLine, ParsePipe, ParseExec;
    var e := s + |Print(b)| + 2;
    HasParts(t, s, "(" + Print(b) + ")", "&");
    HasChar(t, e, "&", 0);
    var x := ReadPlainBlock(t, s, b);
    PipeEnd(t, s, x, e);
    LineBack(t, s, x, e);
    d := Back(x);
  }

  /** A redirection at the end of a command. */
  lemma ReadOneRedir(t: string, s: nat, m: Mode, f: string)
    requires Word(f) && Has(t, s, PrintMode(m) + f) && Stops(t, s + |PrintMode(m) + f|)
    ensures var b, e := s + |PrintMode(m)|, s + |PrintMode(m) + f|;
            && ReadRedirs(t, s) == Redirs([Redirection(Tok(b, e), m)], e)
            && InText(t, Tok(b, e)) && Spell(t, Tok(b, e)) == f && !White(At(t, s))
  {
    hide GetToken, Peek, Skip, PrintMode;
    var b, e := s + |PrintMode(m)|, s + |PrintMode(m) + f|;
    HasParts(t, s, PrintMode(m), f);
    WordToken(t, b, f);
    Operator(t, s, m);
    NoRedirs(t, e);
    Peeks(t, e, "");
    assert [Redirection(Tok(b, e), m)] + ReadRedirs(t, e).list == [Redirection(Tok(b, e), m)];
  }

  lemma Operator(t: string, s: nat, m: Mode)
    requires Has(t, s, PrintMode(m)) && WordChar(At(t, s + |PrintMode(m)|))
    ensures Peek(t, s, "<>") && Skip(t, s) == s && !White(At(t, s))
    ensures GetToken(t, s).pos == s + |PrintMode(m)| && ModeOf(GetToken(t, s).ret) == m
  {
    HasChar(t, s, PrintMode(m), 0);
    if m == Append { HasChar(t, s, PrintMode(m), 1); }
  }

  lemma ReadRedirected(t: string, s: nat, c: Cmd<string>, f: string, m: Mode) returns (d: Cmd<Tok>)
    requires var p := Redir(c, f, m); Writable(p) && Has(t, s, Print(p)) && Stops(t, s + |Print(p)|)
    ensures ParseLine(t, s) == Ok(d, s + |Print(Redir(c, f, m))|) && Says(t, d, Redir(c, f, m))
    decreases Redir(c, f, m), 1
  {
    hide ParseLine, ParsePipe, ParseExec, ReadRedirs;
    var e := s + |Print(c)| + 2;
    HasParts(t, s, "(" + Print(c) + ")", PrintMode(m) + f);
    ReadOneRedir(t, e, m, f);
    var k := Tok(e + |PrintMode(m)|, e + |PrintMode(m) + f|);
    var x := ReadBlock(t, s, c, Redirs([Redirection(k, m)], k.eq));
    d := Redir(x, k, m);
    WrapOne(x, k, m);
    PipeEnd(t, s, d, k.eq);
    LineEnd(t, s, d, k.eq);
  }

  lemma WrapOne(x: Cmd<Tok>, k: Tok, m: Mode)
    ensures Wrap(x, [Redirection(k, m)]) == Redir(x, k, m)
  {
    assert [Redirection(k, m)][..0] == [];
    assert Wrap(x, []) == x;
  }

  /** A part, a mark, another part in parentheses. */
  lemma HasPair(t: string, s: nat, u: string, mark: string, w: string)
    requires |mark| == 1 && w != "" && Has(t, s, u + (mark + w))
    ensures Has(t, s, u) && s + |u| < |t| && At(t, s + |u|) == mark[0]
    ensures Has(t, s + |u| + 1, w) && At(t, s + |u| + 1) == w[0]
  {
    HasParts(t, s, u, mark + w);
    HasParts(t, s + |u|, mark, w);
    HasChar(t, s + |u|, mark, 0);
    HasChar(t, s + |u| + 1, w, 0);
  }

  /** The two blocks of a pipe or a list, c. */
  lemma ReadBlocks(t: string, s: nat, c: Cmd<string>, l: Cmd<string>, mark: string, r: Cmd<string>)
      returns (x: Cmd<Tok>, y: Cmd<Tok>)
    requires l < c && r < c && Writable(l) && Writable(r) && mark in {"|", ";"}
    requires Has(t, s, "(" + Print(l) + ")" + (mark + ("(" + Print(r) + ")")))
    requires Stops(t, s + |Print(l)| + |Print(r)| + 5)
    ensures Says(t, x, l) && Says(t, y, r)
    ensures var m := s + |Print(l)| + 2;
            && m < |t| && At(t, m) == mark[0] && At(t, m + 1) == '('
            && ParseExec(t, s) == Ok(x, m) && ParseExec(t, m + 1) == Ok(y, m + 3 + |Print(r)|)
    decreases c, 0
  {
    hide ParseExec, Print, Writable;
    HasPair(t, s, "(" + Print(l) + ")", mark, "(" + Print(r) + ")");
    x := ReadPlainBlock(t, s, l);
    y := ReadPlainBlock(t, s + |Print(l)| + 3, r);
  }

  lemma ReadPipe(t: string, s: nat, l: Cmd<string>, r: Cmd<string>) returns (d: Cmd<Tok>)
    requires var p := Pipe(l, r); Writable(p) && Has(t, s, Print(p)) && Stops(t, s + |Print(p)|)
    ensures ParseLine(t, s) == Ok(d, s + |Print(Pipe(l, r))|) && Says(t, d, Pipe(l, r))
    decreases Pipe(l, r), 1
  {
    hide ParseLine, ParsePipe, ParseExec, Has;
    var m, e := s + |Print(l)| + 2, s + |Print(Pipe(l, r))|;
    var x, y := ReadBlocks(t, s, Pipe(l, r), l, "|", r);
    PipeEnd(t, m + 1, y, e);
    PipeMore(t, s, x, m, y, e);
    d := Pipe(x, y);
    LineEnd(t, s, d, e);
  }

  lemma ReadList(t: string, s: nat, l: Cmd<string>, r: Cmd<string>) returns (d: Cmd<Tok>)
    requires var p := List(l, r); Writable(p) && Has(t, s, Print(p)) && Stops(t, s + |Print(p)|)
    ensures ParseLine(t, s) == Ok(d, s + |Print(List(l, r))|) && Says(t, d, List(l, r))
    decreases List(l, r), 1
  {
    hide ParseLine, ParsePipe, ParseExec, Has;
    var m, e := s + |Print(l)| + 2, s + |Print(List(l, r))|;
    var x, y := ReadBlocks(t, s, List(l, r), l, ";", r);
    PipeEnd(t, s, x, m);
    PipeEnd(t, m + 1, y, e);
    LineEnd(t, m + 1, y, e);
    LineMore(t, s, x, m, y, e);
    d := List(x, y);
  }

  /** Round trip: for every command that can be written down, parsecmd of its printed form
      rebuilds it. */
  lemma PrintThenParse(c: Cmd<string>)
    requires Writable(c)
    ensures ParseCmd(Print(c)).Ok? && Says(Print(c), ParseCmd(Print(c)).cmd, c)
  {
    hide ParseLine;
    var t := Print(c);
    assert t[0..0 + |t|] == t;
    var d := ReadLine(t, 0, c);
  }

  lemma {:induction false} ArgsOverflow(t: string, s: nat, argv: seq<Tok>, more: seq<string>)
    requires Has(t, s, PrintArgs(more)) && Stops(t, s + |PrintArgs(more)|)
    requires |argv| < MAXARGS <= |argv| + |more| && forall i :: 0 <= i < |more| ==> Word(more[i])
    ensures ParseArgs(t, s, argv, []) == Panic("too many args")
    decreases |more|
  {
    hide ParseArgs, GetToken, Skip, Spell;
    var e := s + |more[0]|;
    FirstArg(t, s, more);
    WordToken(t, s, more[0]);
    if |argv| + 1 >= MAXARGS {
      ArgsFull(t, s, e, argv);
    } else {
      ArgsStart(t, e + 1, more[1..]);
      ArgsStep(t, s, e, argv);
      ArgsOverflow(t, e + 1, argv + [Tok(s, e)], more[1..]);
    }
  }

  lemma TooManyArgs(t: string, s: nat, argv: seq<string>)
    requires Has(t, s, PrintArgs(argv)) && Stops(t, s + |PrintArgs(argv)|)
    requires |argv| >= MAXARGS && forall i :: 0 <= i < |argv| ==> Word(argv[i])
    ensures ParseLine(t, s).Panic?
  {
    hide ParseArgs, ParseExec, ParsePipe, ParseLine, PrintArgs, Word, Has;
    ArgsOverflow(t, s, [], argv);
    ArgsStart(t, s, argv);
    ExecStart(t, s);
    PipePanic(t, s);
    LinePanic(t, s);
  }

  /** The limit on arguments is met exactly: a command of words is accepted when it has
      fewer than MAXARGS of them. */
  lemma ArgumentLimit(argv: seq<string>)
    requires forall i :: 0 <= i < |argv| ==> Word(argv[i])
    ensures ParseCmd(PrintArgs(argv)).Ok? <==> |argv| < MAXARGS
  {
    hide ParseLine, PrintArgs, Says, Word, Skip;
    var t := PrintArgs(argv);
    assert t[0..0 + |t|] == t;
    if |argv| < MAXARGS {
      PrintThenParse(Exec(argv));
    } else {
      TooManyArgs(t, 0, argv);
    }
  }
}
