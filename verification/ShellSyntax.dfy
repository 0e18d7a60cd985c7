/** The grammar of the command lines of Lab3/xv6-riscv/user/sh.c, written down apart from its
    parser: which lexemes a line consists of, and which command it stands for. parsecmd accepts
    these lines and no others. */
module ShellSyntax {
  import opened ShellGrammar

  // ---- lines ----

  /** `Mark('+')` is `>>`. */
  datatype Lexeme = Mark(c: char) | Name(w: string)

  datatype Item = Arg(w: string) | To(r: Redirection<string>)

  /** The arguments and redirections of one command, in any order, or a line in parentheses. */
  datatype Part = Simple(items: seq<Item>) | Block(line: Line, rs: seq<Redirection<string>>)

  datatype Pipeline = One(part: Part) | Through(part: Part, rest: Pipeline)

  /** A pipeline, any number of `&`, and maybe `;` and another line. */
  datatype Line = Last(pipe: Pipeline, backs: nat) | Then(pipe: Pipeline, backs: nat, next: Line)

  // ---- how they are written: the lexemes, and then `rest` ----

  function Op(m: Mode): char { match m case Read => '<' case Truncate => '>' case Append => '+' }

  function OfRedirs(rs: seq<Redirection<string>>, rest: seq<Lexeme>): seq<Lexeme> {
    if rs == [] then rest else [Mark(Op(rs[0].mode)), Name(rs[0].file)] + OfRedirs(rs[1..], rest)
  }

  function OfItems(items: seq<Item>, rest: seq<Lexeme>): seq<Lexeme> {
    if items == [] then rest
    else
      (match items[0] case Arg(w) => [Name(w)] case To(r) => [Mark(Op(r.mode)), Name(r.file)]) + OfItems(items[1..], rest)
  }

  function OfPart(p: Part, rest: seq<Lexeme>): seq<Lexeme> {
    match p
    case Simple(items) => OfItems(items, rest)
    case Block(line, rs) => [Mark('(')] + OfLine(line, [Mark(')')] + OfRedirs(rs, rest))
  }

  function OfPipe(p: Pipeline, rest: seq<Lexeme>): seq<Lexeme> {
    match p
    case One(part) => OfPart(part, rest)
    case Through(part, next) => OfPart(part, [Mark('|')] + OfPipe(next, rest))
  }

  function Ands(n: nat, rest: seq<Lexeme>): seq<Lexeme> {
    if n == 0 then rest else [Mark('&')] + Ands(n - 1, rest)
  }

  function OfLine(l: Line, rest: seq<Lexeme>): seq<Lexeme> {
    match l
    case Last(pipe, n) => OfPipe(pipe, Ands(n, rest))
    case Then(pipe, n, next) => OfPipe(pipe, Ands(n, [Mark(';')] + OfLine(next, rest)))
  }

  // ---- what they stand for ----

  function Args(items: seq<Item>): seq<string> {
    if items == [] then [] else (match items[0] case Arg(w) => [w] case To(_) => []) + Args(items[1..])
  }

  function Targets(items: seq<Item>): seq<Redirection<string>> {
    if items == [] then [] else (match items[0] case Arg(_) => [] case To(r) => [r]) + Targets(items[1..])
  }

  /** Each redirection goes round what is there: the first is innermost. */
  function Around(c: Cmd<string>, rs: seq<Redirection<string>>): Cmd<string>
    decreases |rs|
  {
    if rs == [] then c else Around(Redir(c, rs[0].file, rs[0].mode), rs[1..])
  }

  function PartTree(p: Part): Cmd<string> {
    match p
    case Simple(items) => Around(Exec(Args(items)), Targets(items))
    case Block(line, rs) => Around(LineTree(line), rs)
  }

  function PipeTree(p: Pipeline): Cmd<string> {
    match p
    case One(part) => PartTree(part)
    case Through(part, next) => Pipe(PartTree(part), PipeTree(next))
  }

  function Backs(c: Cmd<string>, n: nat): Cmd<string>
    decreases n
  {
    if n == 0 then c else Backs(Back(c), n - 1)
  }

  function LineTree(l: Line): Cmd<string> {
    match l
    case Last(pipe, n) => Backs(PipeTree(pipe), n)
    case Then(pipe, n, next) => List(Backs(PipeTree(pipe), n), LineTree(next))
  }

  /** No command of the line has MAXARGS arguments. */
  predicate Fits(l: Line) {
    match l
    case Last(pipe, _) => PipeFits(pipe)
    case Then(pipe, _, next) => PipeFits(pipe) && Fits(next)
  }

  predicate PipeFits(p: Pipeline) {
    match p
    case One(part) => PartFits(part)
    case Through(part, next) => PartFits(part) && PipeFits(next)
  }

  predicate PartFits(p: Part) {
    match p
    case Simple(items) => |Args(items)| < 10
    case Block(line, _) => Fits(line)
  }

  // ---- the lexemes of a text ----

  function Lex(t: string, s: nat): seq<Lexeme>
    requires s <= |t|
    decreases |t| - s
  {
    var k := GetToken(t, s);
    if k.ret == '\0' then [] else [if k.ret == 'a' then Name(t[k.q..k.eq]) else Mark(k.ret)] + Lex(t, k.pos)
  }

  /** gettoken gives the lexemes one by one. */
  lemma LexStep(t: string, s: nat)
    requires s <= |t|
    ensures Lex(t, Skip(t, s)) == Lex(t, s) && GetToken(t, Skip(t, s)) == GetToken(t, s)
    ensures var k := GetToken(t, s);
            && (k.ret == '\0' <==> Lex(t, s) == [])
            && (k.ret == '\0' ==> Lex(t, k.pos) == [])
            && (k.ret != '\0' ==>
                  && k.pos > s && k.q < k.eq <= |t|
                  && Lex(t, s) == [if k.ret == 'a' then Name(t[k.q..k.eq]) else Mark(k.ret)] + Lex(t, k.pos))
  {
    hide GetToken;
    TokenOnce(t, s);
    TokenOnce(t, GetToken(t, s).pos);
    TokenEnd(t, s);
  }

  lemma TokenOnce(t: string, s: nat)
    requires s <= |t|
    ensures GetToken(t, Skip(t, s)) == GetToken(t, s)
  {
    hide WordEnd, White, Symbol, WordChar;
  }

  lemma TokenEnd(t: string, s: nat)
    requires s <= |t|
    ensures var k := GetToken(t, s);
      if k.ret == '\0' then GetToken(t, k.pos).ret == '\0' else k.pos > s && k.q < k.eq
  {
    hide WordEnd, White, Symbol, WordChar;
  }

  /** The first lexeme is a mark that peek would find among toks. */
  predicate Starts(ls: seq<Lexeme>, toks: string) {
    ls != [] && ls[0].Mark? && (ls[0].c in toks || (ls[0].c == '+' && '>' in toks))
  }

  lemma PeekSees(t: string, s: nat, toks: string)
    requires s <= |t| && forall c :: c in toks ==> Symbol(c)
    ensures Peek(t, s, toks) <==> Starts(Lex(t, s), toks)
  {
    var q := Skip(t, s);
    LexStep(t, s);
    assert !White(At(t, q));
    assert At(t, q) == '\0' || WordChar(At(t, q)) || Symbol(At(t, q));
  }
}
