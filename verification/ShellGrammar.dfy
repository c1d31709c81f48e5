/** The grammar that sh.c parses, over tokens, and the tree of each sentence. Parsing
    accepts a line exactly if its tokens are a sentence, and gives that sentence's tree. */
module ShellGrammar {
  import opened Shell
  import opened ShellLex

  /** `< file`, `> file` or `>> file`. */
  datatype Redirection = Redirection(mode: Mode, file: string)

  /** A word and the redirections behind it. */
  datatype Arg = Arg(word: string, after: seq<Redirection>)

  datatype Simple =
    | Words(before: seq<Redirection>, args: seq<Arg>)
    | Group(line: Line, after: seq<Redirection>)

  datatype Pipeline = Only(cmd: Simple) | Into(cmd: Simple, rest: Pipeline)

  /** A pipeline, some ampersands, and perhaps a semicolon and another line. */
  datatype Line = Last(pipe: Pipeline, amps: nat) | Then(pipe: Pipeline, amps: nat, rest: Line)

  // -------------------------------------------- the tokens of a sentence, before `tail`

  function OpOf(m: Mode): char { match m case In => '<' case Out => '>' case Append => '+' }

  function RedirTokens(rs: seq<Redirection>, tail: seq<Lexeme>): seq<Lexeme> {
    if rs == [] then tail else [Op(OpOf(rs[0].mode)), Word(rs[0].file)] + RedirTokens(rs[1..], tail)
  }

  function ArgTokens(args: seq<Arg>, tail: seq<Lexeme>): seq<Lexeme> {
    if args == [] then tail else [Word(args[0].word)] + RedirTokens(args[0].after, ArgTokens(args[1..], tail))
  }

  function SimpleTokens(c: Simple, tail: seq<Lexeme>): seq<Lexeme>
    decreases c
  {
    match c
    case Words(rs, args) => RedirTokens(rs, ArgTokens(args, tail))
    case Group(l, rs) => [Op('(')] + LineTokens(l, [Op(')')] + RedirTokens(rs, tail))
  }

  function PipeTokens(p: Pipeline, tail: seq<Lexeme>): seq<Lexeme>
    decreases p
  {
    match p
    case Only(c) => SimpleTokens(c, tail)
    case Into(c, q) => SimpleTokens(c, [Op('|')] + PipeTokens(q, tail))
  }

  function Amps(n: nat, tail: seq<Lexeme>): seq<Lexeme> { if n == 0 then tail else [Op('&')] + Amps(n - 1, tail) }

  function LineTokens(l: Line, tail: seq<Lexeme>): seq<Lexeme>
    decreases l
  {
    match l
    case Last(p, n) => PipeTokens(p, Amps(n, tail))
    case Then(p, n, m) => PipeTokens(p, Amps(n, [Op(';')] + LineTokens(m, tail)))
  }

  // -------------------------------------------------------------- the tree of a sentence

  /** The first redirection is the innermost. */
  function Redirected(c: Cmd<string>, rs: seq<Redirection>): Cmd<string>
    decreases |rs|
  {
    if rs == [] then c else Redirected(Redir(c, rs[0].file, rs[0].mode), rs[1..])
  }

  function ArgRedirs(args: seq<Arg>): seq<Redirection> {
    if args == [] then [] else args[0].after + ArgRedirs(args[1..])
  }

  function ArgWords(args: seq<Arg>): (ws: seq<string>)
    ensures |ws| == |args|
  {
    if args == [] then [] else [args[0].word] + ArgWords(args[1..])
  }

  function SimpleTree(c: Simple): Cmd<string> {
    match c
    case Words(rs, args) => Redirected(Exec(ArgWords(args)), rs + ArgRedirs(args))
    case Group(l, rs) => Redirected(LineTree(l), rs)
  }

  function PipeTree(p: Pipeline): Cmd<string> {
    match p
    case Only(c) => SimpleTree(c)
    case Into(c, q) => Pipe(SimpleTree(c), PipeTree(q))
  }

  function Backs(c: Cmd<string>, n: nat): Cmd<string>
    decreases n
  {
    if n == 0 then c else Backs(Back(c), n - 1)
  }

  function LineTree(l: Line): Cmd<string> {
    match l
    case Last(p, n) => Backs(PipeTree(p), n)
    case Then(p, n, m) => List(Backs(PipeTree(p), n), LineTree(m))
  }

  // -------------------------------------------------------------------- few enough words

  predicate FewWords(l: Line) {
    match l
    case Last(p, _) => FewInPipe(p)
    case Then(p, _, m) => FewInPipe(p) && FewWords(m)
  }

  predicate FewInPipe(p: Pipeline) {
    match p
    case Only(c) => FewInSimple(c)
    case Into(c, q) => FewInSimple(c) && FewInPipe(q)
  }

  predicate FewInSimple(c: Simple) {
    match c
    case Words(_, args) => |args| < 10
    case Group(l, _) => FewWords(l)
  }

  // ------------------------------------------------------------- reading a sentence back

  datatype Got<T> = Got(x: T, rest: seq<Lexeme>) | Bad

  function ReadRedirs(ts: seq<Lexeme>): (r: Got<seq<Redirection>>)
    ensures r.Got? ==> RedirTokens(r.x, r.rest) == ts && |r.rest| <= |ts|
    decreases |ts|
  {
    if !Starts(ts, "<>+") then Got([], ts)
    else if |ts| < 2 || !ts[1].Word? then Bad
    else
      match ReadRedirs(ts[2..])
      case Bad => Bad
      case Got(rs, rest) =>
        assert ts == [ts[0], ts[1]] + ts[2..];
        Got([Redirection(ModeOf(ts[0].k), ts[1].w)] + rs, rest)
  }

  function ReadArgs(ts: seq<Lexeme>, n: nat): (r: Got<seq<Arg>>)
    ensures r.Got? ==> ArgTokens(r.x, r.rest) == ts && |r.rest| <= |ts| && (r.x != [] ==> n + |r.x| < 10)
    decreases |ts|
  {
    if ts == [] || Starts(ts, "|)&;") then Got([], ts)
    else if !ts[0].Word? || n + 1 >= 10 then Bad
    else
      match ReadRedirs(ts[1..])
      case Bad => Bad
      case Got(rs, more) =>
        match ReadArgs(more, n + 1)
        case Bad => Bad
        case Got(args, rest) =>
          assert ts == [ts[0]] + ts[1..];
          Got([Arg(ts[0].w, rs)] + args, rest)
  }

  function ReadSimple(ts: seq<Lexeme>): (r: Got<Simple>)
    ensures r.Got? ==> SimpleTokens(r.x, r.rest) == ts && |r.rest| <= |ts| && FewInSimple(r.x)
    decreases |ts|, 0
  {
    if Starts(ts, "(") then
      match ReadLine(ts[1..])
      case Bad => Bad
      case Got(l, more) =>
        if !Starts(more, ")") then Bad
        else
          match ReadRedirs(more[1..])
          case Bad => Bad
          case Got(rs, rest) =>
            assert ts == [Op('(')] + ts[1..] && more == [Op(')')] + more[1..];
            Got(Group(l, rs), rest)
    else
      match ReadRedirs(ts)
      case Bad => Bad
      case Got(rs, more) =>
        match ReadArgs(more, 0)
        case Bad => Bad
        case Got(args, rest) => Got(Words(rs, args), rest)
  }

  function ReadPipe(ts: seq<Lexeme>): (r: Got<Pipeline>)
    ensures r.Got? ==> PipeTokens(r.x, r.rest) == ts && |r.rest| <= |ts| && FewInPipe(r.x)
    decreases |ts|, 1
  {
    match ReadSimple(ts)
    case Bad => Bad
    case Got(c, more) =>
      if !Starts(more, "|") then Got(Only(c), more)
      else
        match ReadPipe(more[1..])
        case Bad => Bad
        case Got(q, rest) =>
          assert more == [Op('|')] + more[1..];
          Got(Into(c, q), rest)
  }

  function CountAmps(ts: seq<Lexeme>): (n: nat)
    ensures n <= |ts| && Amps(n, ts[n..]) == ts
  {
    if !Starts(ts, "&") then 0
    else
      var n := CountAmps(ts[1..]);
      assert ts == [Op('&')] + ts[1..] && ts[1..][n..] == ts[1 + n..];
      1 + n
  }

  function ReadLine(ts: seq<Lexeme>): (r: Got<Line>)
    ensures r.Got? ==> LineTokens(r.x, r.rest) == ts && |r.rest| <= |ts| && FewWords(r.x)
    decreases |ts|, 2
  {
    match ReadPipe(ts)
    case Bad => Bad
    case Got(p, amps) =>
      var n := CountAmps(amps);
      var more := amps[n..];
      if !Starts(more, ";") then Got(Last(p, n), more)
      else
        match ReadLine(more[1..])
        case Bad => Bad
        case Got(m, rest) =>
          assert more == [Op(';')] + more[1..];
          Got(Then(p, n, m), rest)
  }

  // ---------------------------------------------------- a sentence is read as it was made

  lemma {:induction false} RedirsRead(rs: seq<Redirection>, tail: seq<Lexeme>)
    requires !Starts(tail, "<>+")
    ensures ReadRedirs(RedirTokens(rs, tail)) == Got(rs, tail)
    decreases |rs|
  {
    if rs != [] {
      RedirsRead(rs[1..], tail);
      var ts := RedirTokens(rs, tail);
      assert ts[2..] == RedirTokens(rs[1..], tail);
      assert rs == [rs[0]] + rs[1..];
    }
  }

  lemma {:induction false} ArgsRead(args: seq<Arg>, n: nat, tail: seq<Lexeme>)
    requires (tail == [] || Starts(tail, "|)&;")) && (args != [] ==> n + |args| < 10)
    ensures ReadArgs(ArgTokens(args, tail), n) == Got(args, tail)
    decreases |args|
  {
    hide RedirTokens, ReadRedirs;
    if args != [] {
      var more := ArgTokens(args[1..], tail);
      ArgsRead(args[1..], n + 1, tail);
      assert !Starts(more, "<>+");
      RedirsRead(args[0].after, more);
      var ts := ArgTokens(args, tail);
      assert ts[1..] == RedirTokens(args[0].after, ArgTokens(args[1..], tail));
      assert args == [args[0]] + args[1..];
    }
  }

  lemma WordsFirst(rs: seq<Redirection>, args: seq<Arg>, tail: seq<Lexeme>)
    requires tail == [] || Starts(tail, "|)&;")
    ensures !Starts(ArgTokens(args, tail), "<>+") && !Starts(RedirTokens(rs, ArgTokens(args, tail)), "(")
  {
  }

  lemma {:induction false} SimpleRead(c: Simple, tail: seq<Lexeme>)
    requires FewInSimple(c) && (tail == [] || Starts(tail, "|)&;"))
    ensures ReadSimple(SimpleTokens(c, tail)) == Got(c, tail)
    decreases c
  {
    hide ArgTokens, ReadArgs, RedirTokens, ReadRedirs, LineTokens, ReadLine;
    match c
    case Words(rs, args) =>
      WordsFirst(rs, args, tail);
      RedirsRead(rs, ArgTokens(args, tail));
      ArgsRead(args, 0, tail);
    case Group(l, rs) =>
      assert !Starts(tail, "<>+");
      RedirsRead(rs, tail);
      var more := [Op(')')] + RedirTokens(rs, tail);
      assert more[1..] == RedirTokens(rs, tail);
      LineRead(l, more);
      assert SimpleTokens(c, tail)[1..] == LineTokens(l, more);
  }

  lemma {:induction false} PipeRead(p: Pipeline, tail: seq<Lexeme>)
    requires FewInPipe(p) && (tail == [] || Starts(tail, ")&;"))
    ensures ReadPipe(PipeTokens(p, tail)) == Got(p, tail)
    decreases p
  {
    match p
    case Only(c) => SimpleRead(c, tail);
    case Into(c, q) =>
      PipeRead(q, tail);
      var more := [Op('|')] + PipeTokens(q, tail);
      assert more[1..] == PipeTokens(q, tail);
      SimpleRead(c, more);
  }

  lemma {:induction false} AmpsRead(n: nat, tail: seq<Lexeme>)
    requires !Starts(tail, "&")
    ensures CountAmps(Amps(n, tail)) == n <= |Amps(n, tail)| && Amps(n, tail)[n..] == tail
    ensures n > 0 ==> Starts(Amps(n, tail), "&")
    decreases n
  {
    if n > 0 {
      AmpsRead(n - 1, tail);
      assert Amps(n, tail)[1..] == Amps(n - 1, tail);
    }
  }

  /** Every sentence is read back as the sentence it is, with what follows it left. */
  lemma {:induction false} LineRead(l: Line, tail: seq<Lexeme>)
    requires FewWords(l) && (tail == [] || Starts(tail, ")"))
    ensures ReadLine(LineTokens(l, tail)) == Got(l, tail)
    decreases l
  {
    match l
    case Last(p, n) =>
      AmpsRead(n, tail);
      PipeRead(p, Amps(n, tail));
    case Then(p, n, m) =>
      LineRead(m, tail);
      var more := [Op(';')] + LineTokens(m, tail);
      assert more[1..] == LineTokens(m, tail);
      AmpsRead(n, more);
      PipeRead(p, Amps(n, more));
  }
}
