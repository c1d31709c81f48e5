/** user/sh.c: tokens and the recursive-descent parser, as functions of the input
    line and a position in it. */
module Shell {
  const MAXARGS: nat := 10

  datatype Mode = In | Out | Append

  /** Commands over tokens of type T: positions in the line, or the words themselves. */
  datatype Cmd<T> =
    | Exec(args: seq<T>)
    | Redir(cmd: Cmd<T>, file: T, mode: Mode)
    | Pipe(left: Cmd<T>, right: Cmd<T>)
    | List(left: Cmd<T>, right: Cmd<T>)
    | Back(cmd: Cmd<T>)

  /** A word of the line: q and eq in the source. */
  datatype Tok = Tok(q: nat, eq: nat)

  datatype Parsed = Done(cmd: Cmd<Tok>, pos: nat) | Panic

  predicate Ws(c: char) { c == ' ' || c == '\t' || c == '\r' || c == '\n' || c == '\U{0B}' }

  predicate Sym(c: char) { c == '<' || c == '|' || c == '>' || c == '&' || c == ';' || c == '(' || c == ')' }

  predicate Plain(c: char) { !Ws(c) && !Sym(c) && c != '\0' }

  /** *s, with the terminating NUL past the end. */
  function At(s: string, i: nat): char { if i < |s| then s[i] else '\0' }

  predicate NoNul(s: string) { forall i :: 0 <= i < |s| ==> s[i] != '\0' }

  // ---------------------------------------------------------------------------- tokens

  /** Past any white space. */
  function Skip(s: string, i: nat): (j: nat)
    requires i <= |s|
    ensures i <= j <= |s| && !Ws(At(s, j))
    decreases |s| - i
  {
    if i < |s| && Ws(s[i]) then Skip(s, i + 1) else i
  }

  /** Past the plain characters. */
  function WordEnd(s: string, i: nat): (j: nat)
    requires i <= |s|
    ensures i <= j <= |s| && (j < |s| ==> Ws(s[j]) || Sym(s[j])) && forall k :: i <= k < j ==> !Ws(s[k]) && !Sym(s[k])
    decreases |s| - i
  {
    if i < |s| && !Ws(s[i]) && !Sym(s[i]) then WordEnd(s, i + 1) else i
  }

  /** What gettoken returns: '\0' at the end, 'a' for a word, '+' for >>, or the symbol. */
  datatype Token = Token(kind: char, q: nat, eq: nat, next: nat)

  function GetToken(s: string, i: nat): (t: Token)
    requires i <= |s| && NoNul(s)
    ensures i <= t.q <= t.eq <= t.next <= |s| && t.q == Skip(s, i)
    ensures t.kind == '\0' <==> t.q == |s|
    ensures t.kind != '\0' ==> t.next > i
    ensures t.kind == 'a' ==> GoodTok(s, Tok(t.q, t.eq))
  {
    var q := Skip(s, i);
    var c := At(s, q);
    if c == '\0' then Token('\0', q, q, q)
    else if c == '>' && At(s, q + 1) == '>' then Token('+', q, q + 2, Skip(s, q + 2))
    else if Sym(c) then Token(c, q, q + 1, Skip(s, q + 1))
    else Token('a', q, WordEnd(s, q), Skip(s, WordEnd(s, q)))
  }

  /** A word: non-empty, all plain, and nothing plain follows it. */
  predicate GoodTok(s: string, t: Tok) {
    && t.q < t.eq <= |s| && (forall k :: t.q <= k < t.eq ==> Plain(s[k])) && !Plain(At(s, t.eq))
  }

  /** peek: is the next character one of toks? */
  predicate Peek(s: string, i: nat, toks: string)
    requires i <= |s|
  {
    At(s, Skip(s, i)) != '\0' && At(s, Skip(s, i)) in toks
  }

  predicate AllGood(s: string, c: Cmd<Tok>)
    decreases c
  {
    match c
    case Exec(args) => |args| < MAXARGS && forall k :: 0 <= k < |args| ==> GoodTok(s, args[k])
    case Redir(d, f, _) => AllGood(s, d) && GoodTok(s, f)
    case Pipe(l, r) => AllGood(s, l) && AllGood(s, r)
    case List(l, r) => AllGood(s, l) && AllGood(s, r)
    case Back(d) => AllGood(s, d)
  }

  // ---------------------------------------------------------------------------- parsing

  function ModeOf(kind: char): Mode { if kind == '<' then In else if kind == '>' then Out else Append }

  /** The redirections around a command, outermost last: what parseexec keeps in
      `ret` around the exec node it is still filling. */
  datatype Wrap = Wrap(file: Tok, mode: Mode)

  function Wrapped(c: Cmd<Tok>, ws: seq<Wrap>): Cmd<Tok>
    decreases |ws|
  {
    if ws == [] then c else Redir(Wrapped(c, ws[..|ws| - 1]), ws[|ws| - 1].file, ws[|ws| - 1].mode)
  }

  datatype Redirs = Redirs(ws: seq<Wrap>, pos: nat) | NoFile

  /** parseredirs, as the list of redirections it adds to those there are. */
  function MoreRedirs(s: string, ws: seq<Wrap>, i: nat): (r: Redirs)
    requires i <= |s| && NoNul(s) && forall k :: 0 <= k < |ws| ==> GoodTok(s, ws[k].file)
    ensures r.Redirs? ==> i <= r.pos <= |s| && ws <= r.ws && forall k :: 0 <= k < |r.ws| ==> GoodTok(s, r.ws[k].file)
    decreases |s| - i
  {
    if !Peek(s, i, "<>") then Redirs(ws, Skip(s, i))
    else
      var op := GetToken(s, i);
      var file := GetToken(s, op.next);
      if file.kind != 'a' then NoFile
      else MoreRedirs(s, ws + [Wrap(Tok(file.q, file.eq), ModeOf(op.kind))], file.next)
  }

  /** parseexec's loop, with the words and redirections so far. */
  function ParseWords(s: string, args: seq<Tok>, ws: seq<Wrap>, i: nat): (r: Parsed)
    requires i <= |s| && NoNul(s) && |args| < MAXARGS
    requires (forall k :: 0 <= k < |args| ==> GoodTok(s, args[k])) && forall k :: 0 <= k < |ws| ==>
            GoodTok(s, ws[k].file)
    ensures r.Done? ==> i <= r.pos <= |s| && AllGood(s, r.cmd)
    decreases |s| - i
  {
    WrappedGood(s, Exec(args), ws);
    if Peek(s, i, "|)&;") then Done(Wrapped(Exec(args), ws), Skip(s, i))
    else
      var t := GetToken(s, i);
      if t.kind == '\0' then Done(Wrapped(Exec(args), ws), t.next)
      else if t.kind != 'a' then Panic
      else if |args| + 1 >= MAXARGS then Panic
      else
        match MoreRedirs(s, ws, t.next)
        case NoFile => Panic
        case Redirs(ws', j) => ParseWords(s, args + [Tok(t.q, t.eq)], ws', j)
  }

  lemma WrappedGood(s: string, c: Cmd<Tok>, ws: seq<Wrap>)
    requires AllGood(s, c) && forall k :: 0 <= k < |ws| ==> GoodTok(s, ws[k].file)
    ensures AllGood(s, Wrapped(c, ws))
    decreases |ws|
  {
    if ws != [] { WrappedGood(s, c, ws[..|ws| - 1]); }
  }

  function ParseExec(s: string, i: nat): (r: Parsed)
    requires i <= |s| && NoNul(s)
    ensures r.Done? ==> i <= r.pos <= |s| && AllGood(s, r.cmd)
    decreases |s| - i, 1
  {
    if Peek(s, i, "(") then ParseBlock(s, i)
    else
      match MoreRedirs(s, [], i)
      case NoFile => Panic
      case Redirs(ws, j) => ParseWords(s, [], ws, j)
  }

  function ParseBlock(s: string, i: nat): (r: Parsed)
    requires i <= |s| && NoNul(s) && Peek(s, i, "(")
    ensures r.Done? ==> i <= r.pos <= |s| && AllGood(s, r.cmd)
    decreases |s| - i, 0
  {
    var open := GetToken(s, i);
    match ParseLine(s, open.next)
    case Panic => Panic
    case Done(c, j) =>
      if !Peek(s, j, ")") then Panic
      else
        match MoreRedirs(s, [], GetToken(s, j).next)
        case NoFile => Panic
        case Redirs(ws, k) => WrappedGood(s, c, ws); Done(Wrapped(c, ws), k)
  }

  function ParsePipe(s: string, i: nat): (r: Parsed)
    requires i <= |s| && NoNul(s)
    ensures r.Done? ==> i <= r.pos <= |s| && AllGood(s, r.cmd)
    decreases |s| - i, 2
  {
    match ParseExec(s, i)
    case Panic => Panic
    case Done(c, j) =>
      if !Peek(s, j, "|") then Done(c, Skip(s, j))
      else
        match ParsePipe(s, GetToken(s, j).next)
        case Panic => Panic
        case Done(d, k) => Done(Pipe(c, d), k)
  }

  /** parseline's loop over '&'. */
  function ParseBacks(s: string, c: Cmd<Tok>, i: nat): (r: (Cmd<Tok>, nat))
    requires i <= |s| && NoNul(s) && AllGood(s, c)
    ensures i <= r.1 <= |s| && AllGood(s, r.0)
    decreases |s| - i
  {
    if !Peek(s, i, "&") then (c, Skip(s, i)) else ParseBacks(s, Back(c), GetToken(s, i).next)
  }

  function ParseLine(s: string, i: nat): (r: Parsed)
    requires i <= |s| && NoNul(s)
    ensures r.Done? ==> i <= r.pos <= |s| && AllGood(s, r.cmd)
    decreases |s| - i, 3
  {
    match ParsePipe(s, i)
    case Panic => Panic
    case Done(c, j) =>
      var (d, k) := ParseBacks(s, c, j);
      if !Peek(s, k, ";") then Done(d, Skip(s, k))
      else
        match ParseLine(s, GetToken(s, k).next)
        case Panic => Panic
        case Done(e, n) => Done(List(d, e), n)
  }

  /** parsecmd, up to nulterminate: the whole line, or a panic. */
  function ParseCmd(s: string): (r: Parsed)
    requires NoNul(s)
    ensures r.Done? ==> AllGood(s, r.cmd) && r.pos == |s|
  {
    match ParseLine(s, 0)
    case Panic => Panic
    case Done(c, j) => if Skip(s, j) != |s| then Panic else Done(c, |s|)
  }
}
