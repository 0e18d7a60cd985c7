/** The parser of Lab3/xv6-riscv/user/sh.c as it runs: a cursor over the text, and
    nulterminate over the buffer. */
module ShellParser {
  import opened ShellGrammar
  import opened ShellRoundTrip
  import opened ShellWords
  import G = ShellGrammar

  class Parser {
    const text: string
    var ps: nat          // *ps; es is |text|

    constructor (t: string)
      ensures text == t && ps == 0
    {
      text, ps := t, 0;
    }

    method GetToken() returns (ret: char, q: nat, eq: nat)
      requires ps <= |text|
      modifies `ps
      ensures ps <= |text| && Token(ret, q, eq, ps) == G.GetToken(text, old(ps))
    {
      var s := ps;
      while s < |text| && White(text[s])
        invariant s <= |text| && Skip(text, s) == Skip(text, old(ps))
      {
        s := s + 1;
      }
      q, ret := s, At(text, s);
      if ret == '\0' {
      } else if ret == '|' || ret == '(' || ret == ')' || ret == ';' || ret == '&' || ret == '<' {
        s := s + 1;
      } else if ret == '>' {
        s := s + 1;
        if At(text, s) == '>' {
          ret := '+';
          s := s + 1;
        }
      } else {
        ret := 'a';
        while s < |text| && WordChar(text[s])
          invariant s <= |text| && WordEnd(text, s) == WordEnd(text, q)
        {
          s := s + 1;
        }
      }
      eq := s;
      while s < |text| && White(text[s])
        invariant s <= |text| && Skip(text, s) == Skip(text, eq)
      {
        s := s + 1;
      }
      ps := s;
    }

    method PeekFor(toks: string) returns (b: bool)
      requires ps <= |text|
      modifies `ps
      ensures ps == Skip(text, old(ps)) && b == Peek(text, old(ps), toks)
    {
      var s := ps;
      while s < |text| && White(text[s])
        invariant s <= |text| && Skip(text, s) == Skip(text, old(ps))
      {
        s := s + 1;
      }
      ps := s;
      b := At(text, s) != '\0' && At(text, s) in toks;
    }

    /** parseredirs; the redirections are wrapped around the command by the caller. */
    method ParseRedirs() returns (ok: bool, rs: seq<Redirection<Tok>>)
      requires ps <= |text|
      modifies `ps
      ensures ps <= |text|
      ensures ok <==> ReadRedirs(text, old(ps)).Redirs?
      ensures ok ==> ReadRedirs(text, old(ps)) == Redirs(rs, ps)
    {
      hide G.GetToken, Skip;
      rs := [];
      ghost var goal := ReadRedirs(text, ps);
      while true
        invariant ps <= |text| && Ahead(goal, rs, ReadRedirs(text, ps))
        decreases |text| - ps
      {
        ghost var s := ps;
        var more := PeekFor("<>");
        if !more { return true, rs; }
        SkipTwice(text, s);
        PeekedMoves(text, s, "<>");
        var op, _, _ := GetToken();
        var w, q, eq := GetToken();
        if w != 'a' { return false, rs; }
        AheadMore(goal, rs, Redirection(Tok(q, eq), ModeOf(op)), ReadRedirs(text, ps));
        rs := rs + [Redirection(Tok(q, eq), ModeOf(op))];
      }
    }

    method ParseExec() returns (r: Parsed)
      requires ps <= |text|
      modifies `ps
      ensures ps <= |text| && r == G.ParseExec(text, old(ps)) && (r.Ok? ==> r.pos == ps)
      decreases |text| - ps, 1
    {
      hide G.GetToken, Skip, Peek, ReadRedirs, G.ParseBlock, Wrap;
      SkipTwice(text, ps);
      var block := PeekFor("(");
      if block {
        r := ParseBlock();
        return;
      }
      ghost var s := ps;
      var ok, rs := ParseRedirs();
      if !ok { return Panic("missing file for redirection"); }
      var argv := [];
      ghost var goal := ParseArgs(text, ps, [], rs);
      while true
        invariant ps <= |text| && goal == ParseArgs(text, ps, argv, rs)
        decreases |text| - ps
      {
        ghost var s1 := ps;
        SkipTwice(text, s1);
        var end := PeekFor("|)&;");
        if end { break; }
        var tok, q, eq := GetToken();
        if tok == '\0' { break; }
        TokenGrows(text, s1);
        if tok != 'a' { return Panic("syntax"); }
        argv := argv + [Tok(q, eq)];
        if |argv| >= MAXARGS { return Panic("too many args"); }
        var ok', more := ParseRedirs();
        if !ok' { return Panic("missing file for redirection"); }
        rs := rs + more;
      }
      r := Ok(Wrap(Exec(argv), rs), ps);
    }

    method ParseBlock() returns (r: Parsed)
      requires ps <= |text|
      modifies `ps
      ensures ps <= |text| && r == G.ParseBlock(text, old(ps)) && (r.Ok? ==> r.pos == ps)
      decreases |text| - ps, 0
    {
      hide G.GetToken, Skip, Peek, ReadRedirs, G.ParseLine, Wrap;
      ghost var s0 := ps;
      SkipTwice(text, ps);
      var open := PeekFor("(");
      if !open { return Panic("parseblock"); }
      PeekedMoves(text, s0, "(");
      var _, _, _ := GetToken();
      r := ParseLine();
      if r.Panic? { return; }
      ghost var s1 := ps;
      SkipTwice(text, ps);
      var close := PeekFor(")");
      if !close { return Panic("syntax - missing )"); }
      var _, _, _ := GetToken();
      var ok, rs := ParseRedirs();
      if !ok { return Panic("missing file for redirection"); }
      r := Ok(Wrap(r.cmd, rs), ps);
    }

    method ParsePipe() returns (r: Parsed)
      requires ps <= |text|
      modifies `ps
      ensures ps <= |text| && r == G.ParsePipe(text, old(ps)) && (r.Ok? ==> r.pos == ps)
      decreases |text| - ps, 2
    {
      hide G.GetToken, Skip, Peek, G.ParseExec;
      r := ParseExec();
      if r.Panic? { return; }
      ghost var s1 := ps;
      SkipTwice(text, ps);
      var more := PeekFor("|");
      if more {
        PeekedMoves(text, s1, "|");
        var _, _, _ := GetToken();
        var right := ParsePipe();
        if right.Panic? { return right; }
        r := Ok(Pipe(r.cmd, right.cmd), ps);
      } else {
        r := Ok(r.cmd, ps);
      }
    }

    method ParseLine() returns (r: Parsed)
      requires ps <= |text|
      modifies `ps
      ensures ps <= |text| && r == G.ParseLine(text, old(ps)) && (r.Ok? ==> r.pos == ps)
      decreases |text| - ps, 3
    {
      hide G.GetToken, Skip, Peek, G.ParsePipe;
      r := ParsePipe();
      if r.Panic? { return; }
      var cmd := r.cmd;
      ghost var goal, s0 := ReadBacks(text, ps, cmd), ps;
      while true
        invariant s0 <= ps <= |text| && goal == ReadBacks(text, ps, cmd)
        decreases |text| - ps
      {
        ghost var s1 := ps;
        SkipTwice(text, s1);
        var more := PeekFor("&");
        if !more { break; }
        PeekedMoves(text, s1, "&");
        var _, _, _ := GetToken();
        cmd := Back(cmd);
      }
      SkipTwice(text, ps);
      ghost var s2 := ps;
      var semi := PeekFor(";");
      if semi {
        PeekedMoves(text, s2, ";");
        var _, _, _ := GetToken();
        r := ParseLine();
        if r.Panic? { return; }
        r := Ok(List(cmd, r.cmd), ps);
      } else {
        r := Ok(cmd, ps);
      }
    }
  }

  /** `rs` is what has been read of `goal`, and `rest` what is to come. */
  ghost predicate Ahead(goal: Redirs, rs: seq<Redirection<Tok>>, rest: Redirs) {
    goal == if rest.RedirsPanic? then rest else Redirs(rs + rest.list, rest.pos)
  }

  lemma AheadMore(goal: Redirs, rs: seq<Redirection<Tok>>, x: Redirection<Tok>, rest: Redirs)
    requires Ahead(goal, rs, if rest.RedirsPanic? then rest else Redirs([x] + rest.list, rest.pos))
    ensures Ahead(goal, rs + [x], rest)
  {
    if rest.Redirs? { assert rs + ([x] + rest.list) == rs + [x] + rest.list; }
  }

  lemma SkipTwice(t: string, s: nat)
    requires s <= |t|
    ensures Skip(t, Skip(t, s)) == Skip(t, s)
  {
  }

  // ---- nulterminate ----

  function NulArgs(b: string, argv: seq<Tok>): (b': string)
    requires forall i :: 0 <= i < |argv| ==> argv[i].eq < |b|
    ensures |b'| == |b|
    decreases |argv|
  {
    if argv == [] then b else NulArgs(b, argv[..|argv| - 1])[argv[|argv| - 1].eq := '\0']
  }

  /** The ends of the tokens of c lie in a buffer of n bytes. */
  predicate EndsIn(n: nat, c: Cmd<Tok>) {
    match c
    case Exec(argv) => forall i :: 0 <= i < |argv| ==> argv[i].eq < n
    case Redir(d, f, _) => EndsIn(n, d) && f.eq < n
    case Pipe(l, r) => EndsIn(n, l) && EndsIn(n, r)
    case List(l, r) => EndsIn(n, l) && EndsIn(n, r)
    case Back(d) => EndsIn(n, d)
  }

  /** The buffer after nulterminate. */
  function Nul(b: string, c: Cmd<Tok>): (b': string)
    requires EndsIn(|b|, c)
    ensures |b'| == |b|
    decreases c
  {
    match c
    case Exec(argv) => NulArgs(b, argv)
    case Redir(d, f, _) => Nul(b, d)[f.eq := '\0']
    case Pipe(l, r) => Nul(Nul(b, l), r)
    case List(l, r) => Nul(Nul(b, l), r)
    case Back(d) => Nul(b, d)
  }

  method NulTerminate(buf: array<char>, c: Cmd<Tok>)
    requires EndsIn(buf.Length, c)
    modifies buf
    ensures buf[..] == Nul(old(buf[..]), c)
    decreases c
  {
    match c
    case Exec(argv) =>
      ghost var b := buf[..];
      for i := 0 to |argv|
        invariant buf[..] == NulArgs(b, argv[..i])
      {
        assert argv[..i + 1][..i] == argv[..i];
        buf[argv[i].eq] := '\0';
      }
      assert argv[..|argv|] == argv;
    case Redir(d, f, _) =>
      NulTerminate(buf, d);
      buf[f.eq] := '\0';
    case Pipe(l, r) => NulTerminate(buf, l); NulTerminate(buf, r);
    case List(l, r) => NulTerminate(buf, l); NulTerminate(buf, r);
    case Back(d) => NulTerminate(buf, d);
  }

  /** The buffer still has the words of the text, and its final NUL. */
  ghost predicate Marked(t: string, b: string) {
    && |b| > |t| && b[|t|] == '\0'
    && forall i :: 0 <= i < |t| && WordChar(t[i]) ==> b[i] == t[i]
  }

  /** NULs stay. */
  ghost predicate MoreNuls(b: string, b': string) {
    |b'| == |b| && forall i :: 0 <= i < |b| && b[i] == '\0' ==> b'[i] == '\0'
  }

  /** Every token of c ends at a NUL. */
  ghost predicate Ended(b: string, c: Cmd<Tok>) {
    match c
    case Exec(argv) => forall i :: 0 <= i < |argv| ==> argv[i].eq < |b| && b[argv[i].eq] == '\0'
    case Redir(d, f, _) => Ended(b, d) && f.eq < |b| && b[f.eq] == '\0'
    case Pipe(l, r) => Ended(b, l) && Ended(b, r)
    case List(l, r) => Ended(b, l) && Ended(b, r)
    case Back(d) => Ended(b, d)
  }

  lemma {:induction false} StillEnded(b: string, b': string, c: Cmd<Tok>)
    requires Ended(b, c) && MoreNuls(b, b')
    ensures Ended(b', c)
    decreases c
  {
    match c
    case Exec(argv) =>
    case Redir(d, f, _) => StillEnded(b, b', d);
    case Pipe(l, r) => StillEnded(b, b', l); StillEnded(b, b', r);
    case List(l, r) => StillEnded(b, b', l); StillEnded(b, b', r);
    case Back(d) => StillEnded(b, b', d);
  }

  lemma {:induction false} NulArgsEnds(t: string, b: string, argv: seq<Tok>)
    requires Marked(t, b) && forall i :: 0 <= i < |argv| ==> WordAt(t, argv[i])
    ensures forall i :: 0 <= i < |argv| ==> argv[i].eq < |b|
    ensures Marked(t, NulArgs(b, argv)) && MoreNuls(b, NulArgs(b, argv))
    ensures forall i :: 0 <= i < |argv| ==> NulArgs(b, argv)[argv[i].eq] == '\0'
    decreases |argv|
  {
    if argv != [] {
      var n := |argv| - 1;
      NulArgsEnds(t, b, argv[..n]);
      assert WordAt(t, argv[n]);
      forall i | 0 <= i < |argv| ensures NulArgs(b, argv)[argv[i].eq] == '\0' {
        if i < n { assert argv[..n][i] == argv[i]; }
      }
    }
  }

  /** The end of a word is not in any word, so that marking it leaves the words alone. */
  lemma {:induction false} NulEnds(t: string, b: string, c: Cmd<Tok>)
    requires Marked(t, b) && WellMade(t, c)
    ensures EndsIn(|b|, c)
    ensures Marked(t, Nul(b, c)) && MoreNuls(b, Nul(b, c)) && Ended(Nul(b, c), c)
    decreases c
  {
    match c
    case Exec(argv) => NulArgsEnds(t, b, argv);
    case Redir(d, f, _) =>
      NulEnds(t, b, d);
      assert WordAt(t, f);
      StillEnded(Nul(b, d), Nul(b, c), d);
    case Pipe(l, r) =>
      NulEnds(t, b, l);
      NulEnds(t, Nul(b, l), r);
      StillEnded(Nul(b, l), Nul(b, c), l);
    case List(l, r) =>
      NulEnds(t, b, l);
      NulEnds(t, Nul(b, l), r);
      StillEnded(Nul(b, l), Nul(b, c), l);
    case Back(d) => NulEnds(t, b, d);
  }

  /** The C string at q. */
  function CString(b: string, q: nat): string
    requires q <= |b|
    decreases |b| - q
  {
    if q < |b| && b[q] != '\0' then [b[q]] + CString(b, q + 1) else ""
  }

  /** The command as runcmd sees it, reading each word up to its NUL. */
  predicate Reads(b: string, c: Cmd<Tok>, d: Cmd<string>) {
    match c
    case Exec(argv) =>
      d.Exec? && |argv| == |d.argv| && forall i :: 0 <= i < |argv| ==> argv[i].q <= |b| && CString(b, argv[i].q) == d.argv[i]
    case Redir(x, f, m) => d.Redir? && Reads(b, x, d.cmd) && f.q <= |b| && CString(b, f.q) == d.file && m == d.mode
    case Pipe(l, r) => d.Pipe? && Reads(b, l, d.left) && Reads(b, r, d.right)
    case List(l, r) => d.List? && Reads(b, l, d.left) && Reads(b, r, d.right)
    case Back(x) => d.Back? && Reads(b, x, d.cmd)
  }

  lemma {:induction false} WordReads(t: string, b: string, q: nat, e: nat)
    requires Marked(t, b) && q <= e <= |t| && (forall i :: q <= i < e ==> WordChar(t[i])) && b[e] == '\0'
    ensures CString(b, q) == t[q..e]
    decreases e - q
  {
    if q < e {
      WordReads(t, b, q + 1, e);
      assert t[q..e] == [t[q]] + t[q + 1..e];
    }
  }

  lemma {:induction false} EndedReads(t: string, b: string, c: Cmd<Tok>)
    requires Marked(t, b) && WellMade(t, c) && Ended(b, c)
    ensures TokensIn(t, c) && Reads(b, c, Meaning(t, c))
    decreases c
  {
    match c
    case Exec(argv) =>
      forall i | 0 <= i < |argv| ensures InText(t, argv[i]) && CString(b, argv[i].q) == Spell(t, argv[i]) {
        assert WordAt(t, argv[i]);
        WordReads(t, b, argv[i].q, argv[i].eq);
      }
    case Redir(d, f, _) =>
      EndedReads(t, b, d);
      assert WordAt(t, f);
      WordReads(t, b, f.q, f.eq);
    case Pipe(l, r) => EndedReads(t, b, l); EndedReads(t, b, r);
    case List(l, r) => EndedReads(t, b, l); EndedReads(t, b, r);
    case Back(d) => EndedReads(t, b, d);
  }

  // ---- parsecmd ----

  /** parsecmd on a buffer that holds a C string: the command, with every word cut off by a NUL. */
  method ParseCommand(buf: array<char>, ghost n: nat) returns (r: Parsed)
    requires n < buf.Length && buf[n] == '\0' && Plain(buf[..n])
    modifies buf
    ensures r == ParseCmd(old(buf[..n]))
    ensures r.Panic? ==> buf[..] == old(buf[..])
    ensures r.Ok? ==> TokensIn(old(buf[..n]), r.cmd) && Reads(buf[..], r.cmd, Meaning(old(buf[..n]), r.cmd))
  {
    var len := 0;
    while buf[len] != '\0'
      invariant len <= n && (len < n ==> buf[..n][len] != '\0')
      decreases n - len
    {
      len := len + 1;
    }
    ghost var t, b := buf[..n], buf[..];
    var parser := new Parser(buf[..len]);
    var l := parser.ParseLine();
    if l.Panic? { return l; }
    var _ := parser.PeekFor("");
    if parser.ps != len { return Panic("syntax"); }
    assert l == ParseLine(t, 0);
    LineWords(t, 0);
    assert Marked(t, b);
    NulEnds(t, b, l.cmd);
    NulTerminate(buf, l.cmd);
    EndedReads(t, Nul(b, l.cmd), l.cmd);
    r := Ok(l.cmd, len);
  }
}
