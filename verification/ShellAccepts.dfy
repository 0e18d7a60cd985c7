/** parsecmd of Lab3/xv6-riscv/user/sh.c against the grammar of its command lines: it accepts
    exactly the lines of the grammar, and makes of each the command that it stands for. */
module ShellAccepts {
  import opened ShellGrammar
  import opened ShellRoundTrip
  import opened ShellSyntax

  // ---- redirections ----

  predicate RedirsSay(t: string, xs: seq<Redirection<Tok>>, rs: seq<Redirection<string>>) {
    |xs| == |rs| && forall i :: 0 <= i < |xs| ==> RedirSays(t, xs[i], rs[i])
  }

  predicate RedirSays(t: string, x: Redirection<Tok>, r: Redirection<string>) {
    InText(t, x.file) && Spell(t, x.file) == r.file && x.mode == r.mode
  }

  /** What redircmd builds, inside out, is what the redirections stand for. */
  lemma {:induction false} WrapSays(t: string, c: Cmd<Tok>, d: Cmd<string>, xs: seq<Redirection<Tok>>, rs: seq<Redirection<string>>)
    requires Says(t, c, d) && RedirsSay(t, xs, rs)
    ensures Says(t, Wrap(c, xs), Around(d, rs))
    decreases |xs|
  {
    if xs != [] {
      var n := |xs| - 1;
      assert RedirSays(t, xs[n], rs[n]);
      WrapSays(t, c, d, xs[..n], rs[..n]);
      AroundLast(d, rs);
    }
  }

  lemma {:induction false} AroundLast(d: Cmd<string>, rs: seq<Redirection<string>>)
    requires rs != []
    ensures var n := |rs| - 1; Around(d, rs) == Redir(Around(d, rs[..n]), rs[n].file, rs[n].mode)
    decreases |rs|
  {
    var n := |rs| - 1;
    if n == 0 {
      assert Around(Redir(d, rs[0].file, rs[0].mode), rs[1..]) == Redir(d, rs[0].file, rs[0].mode);
    } else {
      AroundLast(Redir(d, rs[0].file, rs[0].mode), rs[1..]);
      assert rs[1..][..n - 1] == rs[..n][1..];
    }
  }

  /** One redirection is read. */
  lemma RedirStep(t: string, s: nat)
    requires s <= |t| && Starts(Lex(t, s), "<>")
    ensures var op := GetToken(t, Skip(t, s));
            var w := GetToken(t, op.pos);
            && s < op.pos <= w.pos && Lex(t, s)[0] == Mark(Op(ModeOf(op.ret)))
            && (w.ret == 'a' <==> |Lex(t, s)| > 1 && Lex(t, s)[1].Name?)
            && (w.ret == 'a' ==>
                  && InText(t, Tok(w.q, w.eq)) && s < w.pos
                  && Lex(t, s) == [Lex(t, s)[0], Name(Spell(t, Tok(w.q, w.eq)))] + Lex(t, w.pos))
  {
    hide GetToken, Lex, Skip;
    LexStep(t, s);
    var op := GetToken(t, Skip(t, s));
    assert op.ret in {'<', '>', '+'} && Lex(t, s)[0] == Mark(op.ret) && Lex(t, s)[1..] == Lex(t, op.pos);
    LexStep(t, op.pos);
  }

  lemma {:induction false} ReadsRedirs(t: string, s: nat, rs: seq<Redirection<string>>, rest: seq<Lexeme>)
    requires s <= |t| && Lex(t, s) == OfRedirs(rs, rest) && !Starts(rest, "<>")
    ensures var r := ReadRedirs(t, s); r.Redirs? && RedirsSay(t, r.list, rs) && Lex(t, r.pos) == rest
    decreases |rs|
  {
    hide GetToken, Lex, Skip, Peek, Spell, ModeOf;
    PeekSees(t, s, "<>");
    LexStep(t, s);
    if rs != [] {
      RedirStep(t, s);
      var op := GetToken(t, Skip(t, s));
      var w := GetToken(t, op.pos);
      OpModes(rs[0].mode, ModeOf(op.ret));
      assert Lex(t, s)[..2] == [Mark(Op(rs[0].mode)), Name(rs[0].file)];
      assert Lex(t, w.pos) == Lex(t, s)[2..] == OfRedirs(rs[1..], rest);
      ReadsRedirs(t, w.pos, rs[1..], rest);
    }
  }

  lemma OpModes(m: Mode, m': Mode)
    ensures Op(m) == Op(m') ==> m == m'
    ensures Op(m) in "<>" || Op(m) == '+'
  {
  }

  /** And back: what was read was written there. */
  lemma {:induction false} RedirsRead(t: string, s: nat) returns (rs: seq<Redirection<string>>)
    requires s <= |t| && ReadRedirs(t, s).Redirs?
    ensures var r := ReadRedirs(t, s);
            RedirsSay(t, r.list, rs) && Lex(t, s) == OfRedirs(rs, Lex(t, r.pos)) && !Starts(Lex(t, r.pos), "<>")
    decreases |t| - s
  {
    hide GetToken, Lex, Skip, Peek, Spell, ModeOf;
    PeekSees(t, s, "<>");
    LexStep(t, s);
    rs := [];
    if Peek(t, s, "<>") {
      RedirStep(t, s);
      var op := GetToken(t, Skip(t, s));
      var w := GetToken(t, op.pos);
      var more := RedirsRead(t, w.pos);
      rs := [Redirection(Spell(t, Tok(w.q, w.eq)), ModeOf(op.ret))] + more;
      assert rs[1..] == more;
    }
  }

  // ---- the arguments of a command ----

  predicate ArgsSay(t: string, argv: seq<Tok>, ws: seq<string>) {
    |argv| == |ws| && forall i :: 0 <= i < |argv| ==> InText(t, argv[i]) && Spell(t, argv[i]) == ws[i]
  }

  lemma CommandSays(t: string, argv: seq<Tok>, ws: seq<string>, xs: seq<Redirection<Tok>>, rs: seq<Redirection<string>>)
    requires ArgsSay(t, argv, ws) && RedirsSay(t, xs, rs)
    ensures Says(t, Wrap(Exec(argv), xs), Around(Exec(ws), rs))
  {
    assert Meaning(t, Exec(argv)).argv == ws;
    WrapSays(t, Exec(argv), Exec(ws), xs, rs);
  }

  /** The redirections at the head of items, and what is left from the first argument on. */
  function Head(items: seq<Item>): (rs: seq<Redirection<string>>)
  {
    if items == [] || items[0].Arg? then [] else [items[0].r] + Head(items[1..])
  }

  function FromArg(items: seq<Item>): (more: seq<Item>)
    ensures |more| <= |items| && (more == [] || more[0].Arg?)
  {
    if items == [] || items[0].Arg? then items else FromArg(items[1..])
  }

  lemma {:induction false} HeadFirst(items: seq<Item>, rest: seq<Lexeme>)
    ensures OfItems(items, rest) == OfRedirs(Head(items), OfItems(FromArg(items), rest))
    ensures Args(items) == Args(FromArg(items)) && Targets(items) == Head(items) + Targets(FromArg(items))
  {
    if items != [] && items[0].To? { HeadFirst(items[1..], rest); }
  }

  /** Where a command may end. */
  predicate Ends(rest: seq<Lexeme>) { rest == [] || Starts(rest, "|)&;") }

  /** One turn of the loop of parseexec. */
  lemma Turn(t: string, s: nat, argv: seq<Tok>, xs: seq<Redirection<Tok>>)
    requires s <= |t|
    ensures var r, ls, k := ParseArgs(t, s, argv, xs), Lex(t, s), GetToken(t, Skip(t, s));
            if Ends(ls) then r.Ok? && r.cmd == Wrap(Exec(argv), xs) && Lex(t, r.pos) == ls
            else if ls[0].Mark? || |argv| + 1 >= MAXARGS then r.Panic?
            else
              && s < k.pos && ls == [Name(ls[0].w)] + Lex(t, k.pos)
              && InText(t, Tok(k.q, k.eq)) && Spell(t, Tok(k.q, k.eq)) == ls[0].w
              && var more := ReadRedirs(t, k.pos);
                 if more.RedirsPanic? then r.Panic? else r == ParseArgs(t, more.pos, argv + [Tok(k.q, k.eq)], xs + more.list)
  {
    hide GetToken, Lex, Skip, Peek, Wrap, ReadRedirs;
    PeekSees(t, s, "|)&;");
    LexStep(t, s);
  }

  lemma {:induction false} ReadsArgs(t: string, s: nat, argv: seq<Tok>, ws: seq<string>, xs: seq<Redirection<Tok>>,
                                     rs: seq<Redirection<string>>, items: seq<Item>, rest: seq<Lexeme>)
    requires s <= |t| && Lex(t, s) == OfItems(items, rest) && Ends(rest) && (items == [] || items[0].Arg?)
    requires ArgsSay(t, argv, ws) && RedirsSay(t, xs, rs) && |argv| < MAXARGS
    ensures var r := ParseArgs(t, s, argv, xs);
            if |ws| + |Args(items)| < 10
            then r.Ok? && Says(t, r.cmd, Around(Exec(ws + Args(items)), rs + Targets(items))) && Lex(t, r.pos) == rest
            else r.Panic?
    decreases |items|
  {
    hide GetToken, Lex, Skip, Spell, Wrap, Around, Says, RedirsSay, ArgsSay, ParseArgs, ReadRedirs, Ends;
    Turn(t, s, argv, xs);
    SameLength(t, argv, ws);
    if items == [] {
      assert ws + Args(items) == ws && rs + Targets(items) == rs;
      CommandSays(t, argv, ws, xs, rs);
    } else {
      var k, more, w := GetToken(t, Skip(t, s)), items[1..], items[0].w;
      assert items == [Arg(w)] + more;
      OneArg(w, more, rest);
      NamesGoOn(Lex(t, s));
      HeadFirst(more, rest);
      if |argv| + 1 < MAXARGS {
        assert Lex(t, k.pos) == Lex(t, s)[1..];
        NoRedirHead(FromArg(more), rest);
        ReadsRedirs(t, k.pos, Head(more), OfItems(FromArg(more), rest));
        var read := ReadRedirs(t, k.pos);
        MoreSaid(t, argv, ws, Tok(k.q, k.eq), xs, rs, read.list, Head(more));
        Regroup(ws, w, Args(FromArg(more)), rs, Head(more), Targets(FromArg(more)));
        ReadsArgs(t, read.pos, argv + [Tok(k.q, k.eq)], ws + [w], xs + read.list, rs + Head(more), FromArg(more), rest);
      }
    }
  }

  lemma NamesGoOn(ls: seq<Lexeme>)
    requires ls != [] && ls[0].Name?
    ensures !Ends(ls)
  {
  }

  lemma SameLength(t: string, argv: seq<Tok>, ws: seq<string>)
    requires ArgsSay(t, argv, ws)
    ensures |argv| == |ws|
  {
  }

  lemma NoRedirHead(items: seq<Item>, rest: seq<Lexeme>)
    requires Ends(rest) && (items == [] || items[0].Arg?)
    ensures !Starts(OfItems(items, rest), "<>")
  {
  }

  lemma MoreSaid(t: string, argv: seq<Tok>, ws: seq<string>, k: Tok, xs: seq<Redirection<Tok>>, rs: seq<Redirection<string>>,
                 xs': seq<Redirection<Tok>>, rs': seq<Redirection<string>>)
    requires ArgsSay(t, argv, ws) && RedirsSay(t, xs, rs) && RedirsSay(t, xs', rs') && InText(t, k)
    ensures ArgsSay(t, argv + [k], ws + [Spell(t, k)]) && RedirsSay(t, xs + xs', rs + rs')
  {
  }

  lemma Regroup(ws: seq<string>, w: string, ws': seq<string>, rs: seq<Redirection<string>>, rs': seq<Redirection<string>>,
                rs'': seq<Redirection<string>>)
    ensures ws + [w] + ws' == ws + ([w] + ws') && rs + rs' + rs'' == rs + (rs' + rs'')
  {
  }

  /** And back. */
  lemma {:induction false} ArgsRead(t: string, s: nat, argv: seq<Tok>, ws: seq<string>, xs: seq<Redirection<Tok>>,
                                    rs: seq<Redirection<string>>) returns (items: seq<Item>)
    requires s <= |t| && ParseArgs(t, s, argv, xs).Ok? && ArgsSay(t, argv, ws) && RedirsSay(t, xs, rs) && |argv| < MAXARGS
    ensures var r := ParseArgs(t, s, argv, xs);
            && Lex(t, s) == OfItems(items, Lex(t, r.pos)) && |ws| + |Args(items)| < 10
            && Says(t, r.cmd, Around(Exec(ws + Args(items)), rs + Targets(items)))
    decreases |t| - s
  {
    hide GetToken, Lex, Skip, Spell, Wrap, Around, Says, RedirsSay, ArgsSay, ParseArgs, ReadRedirs, Ends;
    Turn(t, s, argv, xs);
    SameLength(t, argv, ws);
    var k, r := GetToken(t, Skip(t, s)), ParseArgs(t, s, argv, xs);
    if Ends(Lex(t, s)) {
      items := [];
      assert ws + Args(items) == ws && rs + Targets(items) == rs;
      CommandSays(t, argv, ws, xs, rs);
    } else {
      var read, w := ReadRedirs(t, k.pos), Lex(t, s)[0].w;
      var more := RedirsRead(t, k.pos);
      MoreSaid(t, argv, ws, Tok(k.q, k.eq), xs, rs, read.list, more);
      var later := ArgsRead(t, read.pos, argv + [Tok(k.q, k.eq)], ws + [w], xs + read.list, rs + more);
      items := [Arg(w)] + Items(more, later);
      OneArg(w, Items(more, later), Lex(t, r.pos));
      Joined(more, later, Lex(t, r.pos));
      Regroup(ws, w, Args(later), rs, more, Targets(later));
    }
  }

  lemma OneArg(w: string, items: seq<Item>, rest: seq<Lexeme>)
    ensures var all := [Arg(w)] + items;
            OfItems(all, rest) == [Name(w)] + OfItems(items, rest) && Args(all) == [w] + Args(items) && Targets(all) == Targets(items)
  {
    assert ([Arg(w)] + items)[1..] == items;
  }

  /** rs and then items. */
  function Items(rs: seq<Redirection<string>>, items: seq<Item>): (r: seq<Item>)
  {
    if rs == [] then items else [To(rs[0])] + Items(rs[1..], items)
  }

  lemma {:induction false} Joined(rs: seq<Redirection<string>>, items: seq<Item>, rest: seq<Lexeme>)
    ensures OfItems(Items(rs, items), rest) == OfRedirs(rs, OfItems(items, rest))
    ensures Args(Items(rs, items)) == Args(items) && Targets(Items(rs, items)) == rs + Targets(items)
  {
    hide OfItems, OfRedirs, Args, Targets, Items;
    Unfolded(rs, items, OfItems(items, rest));
    if rs != [] {
      Joined(rs[1..], items, rest);
      OneTo(rs[0], Items(rs[1..], items), rest);
      assert rs + Targets(items) == [rs[0]] + (rs[1..] + Targets(items));
    } else {
      assert rs + Targets(items) == Targets(items);
    }
  }

  lemma Unfolded(rs: seq<Redirection<string>>, items: seq<Item>, rest: seq<Lexeme>)
    ensures Items(rs, items) == if rs == [] then items else [To(rs[0])] + Items(rs[1..], items)
    ensures OfRedirs(rs, rest) == if rs == [] then rest else [Mark(Op(rs[0].mode)), Name(rs[0].file)] + OfRedirs(rs[1..], rest)
  {
  }

  lemma OneTo(r: Redirection<string>, items: seq<Item>, rest: seq<Lexeme>)
    ensures var all := [To(r)] + items;
            && OfItems(all, rest) == [Mark(Op(r.mode)), Name(r.file)] + OfItems(items, rest)
            && Args(all) == Args(items) && Targets(all) == [r] + Targets(items)
  {
    assert ([To(r)] + items)[1..] == items;
  }

  // ---- commands, pipelines and lines ----

  /** The parser's result is the command c, with `rest` to come, or a panic where a command has
      too many arguments. */
  predicate Agrees(t: string, r: Parsed, fits: bool, c: Cmd<string>, rest: seq<Lexeme>) {
    if fits then r.Ok? && r.pos <= |t| && Says(t, r.cmd, c) && Lex(t, r.pos) == rest else r.Panic?
  }

  /** What peek and gettoken do with a mark. */
  lemma MarkTurn(t: string, s: nat, c: char)
    requires s <= |t| && c in "()|&;"
    ensures Peek(t, s, [c]) <==> Lex(t, s) != [] && Lex(t, s)[0] == Mark(c)
    ensures Lex(t, Skip(t, s)) == Lex(t, s) && Skip(t, Skip(t, s)) == Skip(t, s)
    ensures var p := GetToken(t, Skip(t, s)).pos;
            Peek(t, s, [c]) ==> s < p && Lex(t, s) == [Mark(c)] + Lex(t, p) && Lex(t, s)[1..] == Lex(t, p)
  {
    hide GetToken, Lex, Skip, Peek;
    assert forall x :: x in [c] ==> x == c;
    PeekSees(t, s, [c]);
    LexStep(t, s);
  }

  /** The two ways of parseexec. */
  lemma ExecTurn(t: string, s: nat)
    requires s <= |t|
    ensures var r, ls, rs := ParseExec(t, s), Lex(t, s), ReadRedirs(t, Skip(t, s));
            if ls != [] && ls[0] == Mark('(') then r == ParseBlock(t, Skip(t, s))
            else if rs.RedirsPanic? then r.Panic?
            else r == ParseArgs(t, rs.pos, [], rs.list)
  {
    hide GetToken, Lex, Skip, Peek, ParseBlock, ParseArgs, ReadRedirs;
    MarkTurn(t, s, '(');
  }

  lemma BlockTurn(t: string, s: nat)
    requires s <= |t| && Lex(t, s) != [] && Lex(t, s)[0] == Mark('(')
    ensures var r, p := ParseBlock(t, Skip(t, s)), GetToken(t, Skip(t, s)).pos;
            && s < p && Lex(t, s) == [Mark('(')] + Lex(t, p)
            && var l := ParseLine(t, p);
               if l.Panic? || Lex(t, l.pos) == [] || Lex(t, l.pos)[0] != Mark(')') then r.Panic?
               else
                 var e := GetToken(t, Skip(t, l.pos)).pos;
                 && Lex(t, l.pos) == [Mark(')')] + Lex(t, e)
                 && var rs := ReadRedirs(t, e);
                    if rs.RedirsPanic? then r.Panic? else r == Ok(Wrap(l.cmd, rs.list), rs.pos)
  {
    hide GetToken, Lex, Skip, Peek, ParseLine, ReadRedirs, Wrap;
    MarkTurn(t, s, '(');
    MarkTurn(t, Skip(t, s), '(');
    var l := ParseLine(t, GetToken(t, Skip(t, s)).pos);
    if l.Ok? { MarkTurn(t, l.pos, ')'); }
  }

  lemma ReadsSimple(t: string, s: nat, items: seq<Item>, rest: seq<Lexeme>)
    requires s <= |t| && Lex(t, s) == OfItems(items, rest) && Ends(rest)
    ensures Agrees(t, ParseExec(t, s), |Args(items)| < 10, Around(Exec(Args(items)), Targets(items)), rest)
  {
    hide ParseExec, ParseArgs, ReadRedirs, Lex, Skip, Around, Says;
    ExecTurn(t, s);
    LexStep(t, s);
    HeadFirst(items, rest);
    NoRedirHead(FromArg(items), rest);
    ReadsRedirs(t, Skip(t, s), Head(items), OfItems(FromArg(items), rest));
    var rs := ReadRedirs(t, Skip(t, s));
    ReadsArgs(t, rs.pos, [], [], rs.list, Head(items), FromArg(items), rest);
    assert [] + Args(items) == Args(items);
    assert OfItems(items, rest) != [] ==> OfItems(items, rest)[0] != Mark('(');
  }

  lemma ReadsBlock(t: string, s: nat, line: Line, rs: seq<Redirection<string>>, rest: seq<Lexeme>)
    requires s <= |t| && Lex(t, s) == OfPart(Block(line, rs), rest) && !Starts(rest, "<>")
    ensures Agrees(t, ParseExec(t, s), Fits(line), Around(LineTree(line), rs), rest)
    decreases line, 2
  {
    hide ParseExec, ParseBlock, ParseLine, ReadRedirs, Lex, Skip, GetToken, Around, Says, RedirsSay, Wrap, OfLine, OfRedirs, LineTree;
    var tail := [Mark(')')] + OfRedirs(rs, rest);
    assert Lex(t, s)[0] == Mark('(') && Lex(t, s)[1..] == OfLine(line, tail);
    ExecTurn(t, s);
    BlockTurn(t, s);
    var p := GetToken(t, Skip(t, s)).pos;
    assert Lex(t, p) == Lex(t, s)[1..];
    ReadsLine(t, p, line, tail);
    if Fits(line) {
      var l := ParseLine(t, p);
      var e := GetToken(t, Skip(t, l.pos)).pos;
      assert Lex(t, e) == tail[1..];
      ReadsRedirs(t, e, rs, rest);
      WrapSays(t, l.cmd, LineTree(line), ReadRedirs(t, e).list, rs);
    }
  }

  lemma ReadsPart(t: string, s: nat, p: Part, rest: seq<Lexeme>)
    requires s <= |t| && Lex(t, s) == OfPart(p, rest) && Ends(rest)
    ensures Agrees(t, ParseExec(t, s), PartFits(p), PartTree(p), rest)
    decreases p, 0
  {
    hide ParseExec, Lex, Agrees;
    match p
    case Simple(items) => ReadsSimple(t, s, items, rest);
    case Block(line, rs) => ReadsBlock(t, s, line, rs, rest);
  }

  lemma PipeTurn(t: string, s: nat)
    requires s <= |t|
    ensures var r, l := ParsePipe(t, s), ParseExec(t, s);
            if l.Panic? then r.Panic?
            else if Lex(t, l.pos) == [] || Lex(t, l.pos)[0] != Mark('|') then
              r.Ok? && r.cmd == l.cmd && Lex(t, r.pos) == Lex(t, l.pos)
            else
              var p := GetToken(t, Skip(t, l.pos)).pos;
              && l.pos < p && Lex(t, l.pos) == [Mark('|')] + Lex(t, p)
              && var next := ParsePipe(t, p);
                 if next.Panic? then r.Panic? else r == Ok(Pipe(l.cmd, next.cmd), next.pos)
  {
    hide GetToken, Lex, Skip, Peek, ParseExec;
    var l := ParseExec(t, s);
    if l.Ok? { MarkTurn(t, l.pos, '|'); }
  }

  lemma BothSay(t: string, x: Cmd<Tok>, c: Cmd<string>, y: Cmd<Tok>, d: Cmd<string>)
    requires Says(t, x, c) && Says(t, y, d)
    ensures Says(t, Pipe(x, y), Pipe(c, d)) && Says(t, List(x, y), List(c, d))
  {
  }

  /** Where a pipeline may end. */
  predicate PipeEnds(rest: seq<Lexeme>) { rest == [] || Starts(rest, ")&;") }

  lemma ReadsPipe(t: string, s: nat, p: Pipeline, rest: seq<Lexeme>)
    requires s <= |t| && Lex(t, s) == OfPipe(p, rest) && PipeEnds(rest)
    ensures Agrees(t, ParsePipe(t, s), PipeFits(p), PipeTree(p), rest)
    decreases p, 0
  {
    hide ParseExec, ParsePipe, Lex, GetToken, Skip, OfPart, PartTree, Says;
    PipeTurn(t, s);
    match p
    case One(part) => ReadsPart(t, s, part, rest);
    case Through(part, next) =>
      var tail := [Mark('|')] + OfPipe(next, rest);
      ReadsPart(t, s, part, tail);
      if PartFits(part) {
        var l := ParseExec(t, s);
        assert Lex(t, GetToken(t, Skip(t, l.pos)).pos) == tail[1..];
        var e := GetToken(t, Skip(t, l.pos)).pos;
        ReadsPipe(t, e, next, rest);
        if PipeFits(next) { BothSay(t, l.cmd, PartTree(part), ParsePipe(t, e).cmd, PipeTree(next)); }
      }
  }

  lemma {:induction false} ReadsBacks(t: string, s: nat, c: Cmd<Tok>, d: Cmd<string>, n: nat, rest: seq<Lexeme>)
    requires s <= |t| && Lex(t, s) == Ands(n, rest) && (rest == [] || rest[0] != Mark('&')) && Says(t, c, d)
    ensures Agrees(t, ReadBacks(t, s, c), true, Backs(d, n), rest)
    decreases n
  {
    hide Lex, GetToken, Skip, Peek;
    MarkTurn(t, s, '&');
    if n > 0 { ReadsBacks(t, GetToken(t, Skip(t, s)).pos, Back(c), Back(d), n - 1, rest); }
  }

  lemma LineTurn(t: string, s: nat)
    requires s <= |t|
    ensures var r, p := ParseLine(t, s), ParsePipe(t, s);
            if p.Panic? then r.Panic?
            else
              var l := ReadBacks(t, p.pos, p.cmd);
              if Lex(t, l.pos) == [] || Lex(t, l.pos)[0] != Mark(';') then
                r.Ok? && r.cmd == l.cmd && Lex(t, r.pos) == Lex(t, l.pos)
              else
                var e := GetToken(t, Skip(t, l.pos)).pos;
                && l.pos < e && Lex(t, l.pos) == [Mark(';')] + Lex(t, e)
                && var next := ParseLine(t, e);
                   if next.Panic? then r.Panic? else r == Ok(List(l.cmd, next.cmd), next.pos)
  {
    hide GetToken, Lex, Skip, Peek, ParsePipe, ReadBacks;
    var p := ParsePipe(t, s);
    if p.Ok? { MarkTurn(t, ReadBacks(t, p.pos, p.cmd).pos, ';'); }
  }

  /** Where a line may end. */
  predicate LineEnds(rest: seq<Lexeme>) { rest == [] || rest[0] == Mark(')') }

  lemma AndsEnd(n: nat, rest: seq<Lexeme>)
    requires LineEnds(rest) || rest[0] == Mark(';')
    ensures PipeEnds(Ands(n, rest))
  {
  }

  lemma ReadsLine(t: string, s: nat, line: Line, rest: seq<Lexeme>)
    requires s <= |t| && Lex(t, s) == OfLine(line, rest) && LineEnds(rest)
    ensures Agrees(t, ParseLine(t, s), Fits(line), LineTree(line), rest)
    decreases line, 1
  {
    hide ParsePipe, ParseLine, ReadBacks, Lex, GetToken, Skip, OfPipe, PipeTree, Says, Backs, Ands;
    LineTurn(t, s);
    var tail := if line.Last? then rest else [Mark(';')] + OfLine(line.next, rest);
    AndsEnd(line.backs, tail);
    ReadsPipe(t, s, line.pipe, Ands(line.backs, tail));
    if PipeFits(line.pipe) {
      var p := ParsePipe(t, s);
      ReadsBacks(t, p.pos, p.cmd, PipeTree(line.pipe), line.backs, tail);
      var l := ReadBacks(t, p.pos, p.cmd);
      if line.Then? {
        var e := GetToken(t, Skip(t, l.pos)).pos;
        assert Lex(t, e) == tail[1..];
        ReadsLine(t, e, line.next, rest);
        if Fits(line.next) { BothSay(t, l.cmd, Backs(PipeTree(line.pipe), line.backs), ParseLine(t, e).cmd, LineTree(line.next)); }
      }
    }
  }

  // ---- and back: what is accepted is a line of the grammar ----

  lemma PartRead(t: string, s: nat) returns (p: Part)
    requires s <= |t| && ParseExec(t, s).Ok?
    ensures var r := ParseExec(t, s);
            r.pos <= |t| && Lex(t, s) == OfPart(p, Lex(t, r.pos)) && PartFits(p) && Says(t, r.cmd, PartTree(p))
    decreases |t| - s, 0
  {
    hide ParseExec, ParseBlock, ParseArgs, ParseLine, ReadRedirs, Lex, Skip, GetToken, Around, Says, RedirsSay, Wrap, OfLine;
    ExecTurn(t, s);
    LexStep(t, s);
    if Lex(t, s) != [] && Lex(t, s)[0] == Mark('(') {
      BlockTurn(t, s);
      var e := GetToken(t, Skip(t, s)).pos;
      var l := ParseLine(t, e);
      var line := LineRead(t, e);
      var e' := GetToken(t, Skip(t, l.pos)).pos;
      var rs := RedirsRead(t, e');
      WrapSays(t, l.cmd, LineTree(line), ReadRedirs(t, e').list, rs);
      p := Block(line, rs);
    } else {
      var rs := ReadRedirs(t, Skip(t, s));
      var head := RedirsRead(t, Skip(t, s));
      NoneSaid(t);
      var items := ArgsRead(t, rs.pos, [], [], rs.list, head);
      p := Simple(Items(head, items));
      Joined(head, items, Lex(t, ParseExec(t, s).pos));
      assert [] + Args(items) == Args(items);
    }
  }

  lemma NoneSaid(t: string)
    ensures ArgsSay(t, [], [])
  {
  }

  lemma PipeRead(t: string, s: nat) returns (p: Pipeline)
    requires s <= |t| && ParsePipe(t, s).Ok?
    ensures var r := ParsePipe(t, s);
            r.pos <= |t| && Lex(t, s) == OfPipe(p, Lex(t, r.pos)) && PipeFits(p) && Says(t, r.cmd, PipeTree(p))
    decreases |t| - s, 1
  {
    hide ParseExec, ParsePipe, Lex, GetToken, Skip, OfPart, PartTree, Says;
    PipeTurn(t, s);
    var l := ParseExec(t, s);
    var part := PartRead(t, s);
    if Lex(t, l.pos) != [] && Lex(t, l.pos)[0] == Mark('|') {
      var e := GetToken(t, Skip(t, l.pos)).pos;
      var next := PipeRead(t, e);
      p := Through(part, next);
      BothSay(t, l.cmd, PartTree(part), ParsePipe(t, e).cmd, PipeTree(next));
    } else {
      p := One(part);
    }
  }

  lemma {:induction false} BacksRead(t: string, s: nat, c: Cmd<Tok>, d: Cmd<string>) returns (n: nat)
    requires s <= |t| && Says(t, c, d)
    ensures var r := ReadBacks(t, s, c);
            r.pos <= |t| && Lex(t, s) == Ands(n, Lex(t, r.pos)) && Says(t, r.cmd, Backs(d, n))
    decreases |t| - s
  {
    hide Lex, GetToken, Skip, Peek;
    MarkTurn(t, s, '&');
    n := 0;
    if Peek(t, s, "&") {
      var m := BacksRead(t, GetToken(t, Skip(t, s)).pos, Back(c), Back(d));
      n := m + 1;
    }
  }

  lemma LineRead(t: string, s: nat) returns (line: Line)
    requires s <= |t| && ParseLine(t, s).Ok?
    ensures var r := ParseLine(t, s);
            r.pos <= |t| && Lex(t, s) == OfLine(line, Lex(t, r.pos)) && Fits(line) && Says(t, r.cmd, LineTree(line))
    decreases |t| - s, 2
  {
    hide ParsePipe, ParseLine, ReadBacks, Lex, GetToken, Skip, OfPipe, PipeTree, Says, Backs, Ands;
    LineTurn(t, s);
    var p := ParsePipe(t, s);
    var pipe := PipeRead(t, s);
    var n := BacksRead(t, p.pos, p.cmd, PipeTree(pipe));
    var l := ReadBacks(t, p.pos, p.cmd);
    if Lex(t, l.pos) != [] && Lex(t, l.pos)[0] == Mark(';') {
      var e := GetToken(t, Skip(t, l.pos)).pos;
      var next := LineRead(t, e);
      line := Then(pipe, n, next);
      BothSay(t, l.cmd, Backs(PipeTree(pipe), n), ParseLine(t, e).cmd, LineTree(next));
    } else {
      line := Last(pipe, n);
    }
  }

  // ---- parsecmd ----

  /** All lexemes are read when the cursor is at the end, white space apart. */
  lemma AllRead(t: string, s: nat)
    requires s <= |t| && Plain(t)
    ensures Skip(t, s) == |t| <==> Lex(t, s) == []
  {
    LexStep(t, s);
    assert Skip(t, s) < |t| ==> t[Skip(t, s)] in t;
    hide Lex, Skip, WordEnd;
  }

  /** A line of the grammar is accepted unless a command has MAXARGS arguments or more, and
      becomes the command it stands for. */
  lemma LineMeans(t: string, line: Line)
    requires Plain(t) && Lex(t, 0) == OfLine(line, [])
    ensures ParseCmd(t).Ok? <==> Fits(line)
    ensures ParseCmd(t).Ok? ==> Says(t, ParseCmd(t).cmd, LineTree(line))
  {
    hide ParseLine, Lex, Skip, OfLine, Says;
    ReadsLine(t, 0, line, []);
    if ParseLine(t, 0).Ok? { AllRead(t, ParseLine(t, 0).pos); }
  }

  /** parsecmd accepts a text exactly when its lexemes are a line of the grammar with fewer than
      MAXARGS arguments to each command, and what it makes of it is what such a line stands for. */
  lemma AcceptsGrammar(t: string)
    requires Plain(t)
    ensures ParseCmd(t).Ok? <==> exists line :: Fits(line) && Lex(t, 0) == OfLine(line, [])
    ensures ParseCmd(t).Ok? ==>
              exists line :: Fits(line) && Lex(t, 0) == OfLine(line, []) && Says(t, ParseCmd(t).cmd, LineTree(line))
  {
    hide ParseLine, Lex, Skip, OfLine, Says, Fits;
    if ParseCmd(t).Ok? {
      AllRead(t, ParseLine(t, 0).pos);
      var line := LineRead(t, 0);
      assert Fits(line) && Lex(t, 0) == OfLine(line, []);
    }
    if line :| Fits(line) && Lex(t, 0) == OfLine(line, []) { LineMeans(t, line); }
  }

  // ---- texts as people write them ----

  predicate Blank(gap: string) { forall i :: 0 <= i < |gap| ==> White(gap[i]) }

  function Spelling(x: Lexeme): string {
    match x case Mark(c) => (if c == '+' then ">>" else [c]) case Name(w) => w
  }

  /** Lexemes and the white space after each. */
  function Written(ls: seq<Lexeme>, gaps: seq<string>): string
    requires |ls| == |gaps|
  {
    if ls == [] then "" else Spelling(ls[0]) + gaps[0] + Written(ls[1..], gaps[1..])
  }

  /** Only a word after a word, or a `>` or `>>` after a `>`, needs white space in between. */
  predicate Legible(ls: seq<Lexeme>, gaps: seq<string>) {
    && |ls| == |gaps|
    && (forall i :: 0 <= i < |ls| ==> Blank(gaps[i]))
    && (forall i :: 0 <= i < |ls| ==> Lexical(ls[i]))
    && (forall i :: 0 <= i < |ls| - 1 && gaps[i] == "" ==> Apart(ls[i], ls[i + 1]))
  }

  predicate Lexical(x: Lexeme) {
    match x case Mark(c) => c in "()|&;<>+" case Name(w) => Word(w)
  }

  predicate Apart(x: Lexeme, y: Lexeme) {
    !(x.Name? && y.Name?) && !(x == Mark('>') && y in {Mark('>'), Mark('+')})
  }

  lemma {:induction false} SkipBlank(t: string, s: nat, gap: string)
    requires Has(t, s, gap) && Blank(gap) && !White(At(t, s + |gap|))
    ensures Skip(t, s) == s + |gap|
    decreases |gap|
  {
    if gap != "" {
      HasChar(t, s, gap, 0);
      assert gap == gap[..1] + gap[1..];
      HasParts(t, s, gap[..1], gap[1..]);
      SkipBlank(t, s + 1, gap[1..]);
    }
  }

  /** What follows a lexeme. */
  predicate Follows(c: char, gap: string, ls: seq<Lexeme>) {
    if gap != "" then White(c) else if ls == [] then c == '\0' else [c] <= Spelling(ls[0])
  }

  /** From s on the text is white space and then the lexemes. */
  ghost predicate Shows(t: string, s: nat, gap: string, ls: seq<Lexeme>, gaps: seq<string>) {
    && Legible(ls, gaps) && Blank(gap) && Has(t, s, gap) && Has(t, s + |gap|, Written(ls, gaps))
    && s + |gap| + |Written(ls, gaps)| == |t|
  }

  lemma Following(t: string, s: nat, gap: string, ls: seq<Lexeme>, gaps: seq<string>)
    requires Shows(t, s, gap, ls, gaps)
    ensures ls != [] ==> Spelling(ls[0]) != ""
    ensures Follows(At(t, s), gap, ls)
    ensures Skip(t, s) == s + |gap| && (ls != [] ==> At(t, s + |gap|) == Spelling(ls[0])[0])
    ensures ls == [] ==> At(t, s + |gap|) == '\0'
  {
    if gap != "" { HasChar(t, s, gap, 0); }
    if ls != [] { HasChar(t, s + |gap|, Written(ls, gaps), 0); }
    SkipBlank(t, s, gap);
  }

  predicate IsToken(t: string, k: Token, x: Lexeme) {
    match x
    case Mark(c) => k.ret == c && c != 'a' && c != '\0'
    case Name(w) => k.ret == 'a' && k.q <= k.eq <= |t| && t[k.q..k.eq] == w
  }

  /** A lexeme is one token, whatever may follow it. */
  lemma SpelledToken(t: string, q: nat, x: Lexeme, gap: string, ls: seq<Lexeme>)
    requires Has(t, q, Spelling(x)) && q + |Spelling(x)| <= |t| && Follows(At(t, q + |Spelling(x)|), gap, ls)
    requires Lexical(x) && (ls != [] ==> Lexical(ls[0]) && (gap == "" ==> Apart(x, ls[0])))
    ensures GetToken(t, q).pos == Skip(t, q + |Spelling(x)|) && IsToken(t, GetToken(t, q), x)
  {
    hide Skip;
    var e := q + |Spelling(x)|;
    HasChar(t, q, Spelling(x), 0);
    match x
    case Name(w) =>
      assert !WordChar(At(t, e));
      hide GetToken, WordChar, Lexical;
      WordToken(t, q, w);
    case Mark(c) =>
      SkipHere(t, q);
      if c == '+' { HasChar(t, q, ">>", 1); }
      MarkToken(t, q);
  }

  lemma MarkToken(t: string, q: nat)
    requires q <= |t| && Symbol(At(t, q)) && Skip(t, q) == q
    ensures var k, c := GetToken(t, q), At(t, q);
            if c == '>' && At(t, q + 1) == '>' then k.ret == '+' && k.pos == Skip(t, q + 2)
            else k.ret == c && k.pos == Skip(t, q + 1)
  {
    hide Skip;
  }

  lemma SkipHere(t: string, s: nat)
    requires s <= |t| && !White(At(t, s))
    ensures Skip(t, s) == s
  {
  }

  lemma {:induction false} LexesWritten(t: string, s: nat, gap: string, ls: seq<Lexeme>, gaps: seq<string>)
    requires Shows(t, s, gap, ls, gaps)
    ensures s <= |t| && Lex(t, s) == ls
    decreases |ls|
  {
    hide Skip, GetToken, Lex, Spelling, Shows;
    if ls == [] {
      NothingWritten(t, s, gap, gaps);
    } else {
      FirstLexeme(t, s, gap, ls, gaps);
      LexesWritten(t, s + |gap| + |Spelling(ls[0])|, gaps[0], ls[1..], gaps[1..]);
    }
  }

  lemma NothingWritten(t: string, s: nat, gap: string, gaps: seq<string>)
    requires Shows(t, s, gap, [], gaps)
    ensures s <= |t| && Lex(t, s) == []
  {
    hide Skip, GetToken, Lex;
    Following(t, s, gap, [], gaps);
    LexStep(t, s);
    EndToken(t, s);
  }

  lemma FirstLexeme(t: string, s: nat, gap: string, ls: seq<Lexeme>, gaps: seq<string>)
    requires ls != [] && Shows(t, s, gap, ls, gaps)
    ensures |ls| == |gaps| && s <= |t|
    ensures var e := s + |gap| + |Spelling(ls[0])|;
            e <= |t| && Lex(t, s) == [ls[0]] + Lex(t, e) && Shows(t, e, gaps[0], ls[1..], gaps[1..])
  {
    hide Skip, GetToken, Lex, Spelling, Shows, Has, Lexical, Apart, IsToken;
    FirstWritten(t, s, gap, ls, gaps);
    GapSkipped(t, s, gap, ls, gaps);
    FirstToken(t, s + |gap|, ls[0], gaps[0], ls[1..], gaps[1..]);
    OneLexeme(t, s, s + |gap| + |Spelling(ls[0])|, ls[0]);
  }

  lemma GapSkipped(t: string, s: nat, gap: string, ls: seq<Lexeme>, gaps: seq<string>)
    requires Shows(t, s, gap, ls, gaps)
    ensures Skip(t, s) == s + |gap|
  {
    Following(t, s, gap, ls, gaps);
  }

  lemma FirstToken(t: string, q: nat, x: Lexeme, gap: string, ls: seq<Lexeme>, gaps: seq<string>)
    requires Lexical(x) && (ls != [] ==> Lexical(ls[0]) && (gap == "" ==> Apart(x, ls[0])))
    requires Has(t, q, Spelling(x)) && Shows(t, q + |Spelling(x)|, gap, ls, gaps)
    ensures q <= |t| && q + |Spelling(x)| <= |t|
    ensures GetToken(t, q).pos == Skip(t, q + |Spelling(x)|) && IsToken(t, GetToken(t, q), x)
  {
    Following(t, q + |Spelling(x)|, gap, ls, gaps);
    SpelledToken(t, q, x, gap, ls);
  }

  lemma FirstWritten(t: string, s: nat, gap: string, ls: seq<Lexeme>, gaps: seq<string>)
    requires ls != [] && Shows(t, s, gap, ls, gaps)
    ensures |ls| == |gaps| && s <= |t|
    ensures Has(t, s + |gap|, Spelling(ls[0])) && Shows(t, s + |gap| + |Spelling(ls[0])|, gaps[0], ls[1..], gaps[1..])
    ensures Lexical(ls[0]) && (ls[1..] != [] ==> Lexical(ls[1..][0]) && (gaps[0] == "" ==> Apart(ls[0], ls[1..][0])))
  {
    hide Spelling, Has, Blank, Lexical, Apart;
    LaterLegible(ls, gaps);
    var q := s + |gap|;
    HasParts(t, q, Spelling(ls[0]) + gaps[0], Written(ls[1..], gaps[1..]));
    HasParts(t, q, Spelling(ls[0]), gaps[0]);
    InRange(t, s, gap);
  }

  lemma InRange(t: string, s: nat, w: string)
    requires Has(t, s, w)
    ensures s + |w| <= |t|
  {
  }

  lemma OneLexeme(t: string, s: nat, e: nat, x: Lexeme)
    requires s <= |t| && e <= |t|
    requires GetToken(t, Skip(t, s)).pos == Skip(t, e) && IsToken(t, GetToken(t, Skip(t, s)), x)
    ensures Lex(t, s) == [x] + Lex(t, e)
  {
    hide Skip, GetToken, Lex;
    LexStep(t, s);
    LexStep(t, e);
  }

  lemma EndToken(t: string, s: nat)
    requires s <= |t| && At(t, Skip(t, s)) == '\0'
    ensures GetToken(t, s).ret == '\0'
  {
  }

  lemma LaterLegible(ls: seq<Lexeme>, gaps: seq<string>)
    requires Legible(ls, gaps) && ls != []
    ensures Legible(ls[1..], gaps[1..]) && Blank(gaps[0])
    ensures Lexical(ls[0]) && (|ls| > 1 ==> Lexical(ls[1]) && (gaps[0] == "" ==> Apart(ls[0], ls[1])))
  {
  }

  lemma {:induction false} WrittenPlain(ls: seq<Lexeme>, gaps: seq<string>)
    requires Legible(ls, gaps)
    ensures Plain(Written(ls, gaps))
  {
    if ls != [] {
      LaterLegible(ls, gaps);
      WrittenPlain(ls[1..], gaps[1..]);
      BlankPlain(gaps[0]);
      assert Plain(Spelling(ls[0])) by { if ls[0].Name? { forall c | c in ls[0].w ensures c != '\0' {} } }
    }
  }

  lemma BlankPlain(gap: string)
    requires Blank(gap)
    ensures Plain(gap)
  {
  }

  /** Any line, written with any white space that keeps its lexemes apart, without parentheses
      where the line has none: parsecmd makes of it the command that the line stands for, unless
      a command has too many arguments. */
  lemma WrittenLine(line: Line, lead: string, gaps: seq<string>)
    requires Blank(lead) && Legible(OfLine(line, []), gaps)
    ensures var t := lead + Written(OfLine(line, []), gaps);
            && (ParseCmd(t).Ok? <==> Fits(line))
            && (ParseCmd(t).Ok? ==> Says(t, ParseCmd(t).cmd, LineTree(line)))
  {
    hide ParseCmd, Lex, OfLine, Says, Written, LineTree;
    var ls := OfLine(line, []);
    var t := lead + Written(ls, gaps);
    assert t[0..0 + |t|] == t;
    WrittenPlain(ls, gaps);
    BlankPlain(lead);
    HasParts(t, 0, lead, Written(ls, gaps));
    LexesWritten(t, 0, lead, ls, gaps);
    LineMeans(t, line);
  }
}
