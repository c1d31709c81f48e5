/** The shell's parser reads sentences of the grammar: it accepts exactly the lines whose
    tokens are one, and gives its tree, whatever the blanks between the tokens. */
module ShellReads {
  import opened Shell
  import opened ShellLex
  import opened ShellGrammar

  function WordOf(s: string, t: Tok): string
    requires GoodTok(s, t)
  {
    s[t.q..t.eq]
  }

  /** The tree with its words spelled out. */
  function Spell(s: string, c: Cmd<Tok>): Cmd<string>
    requires AllGood(s, c)
    decreases c
  {
    match c
    case Exec(args) => Exec(SpellWords(s, args))
    case Redir(d, f, m) => Redir(Spell(s, d), WordOf(s, f), m)
    case Pipe(l, r) => Pipe(Spell(s, l), Spell(s, r))
    case List(l, r) => List(Spell(s, l), Spell(s, r))
    case Back(d) => Back(Spell(s, d))
  }

  function SpellWords(s: string, args: seq<Tok>): (ws: seq<string>)
    requires forall k :: 0 <= k < |args| ==> GoodTok(s, args[k])
    ensures |ws| == |args| && forall k :: 0 <= k < |args| ==> ws[k] == WordOf(s, args[k])
  {
    seq(|args|, k requires 0 <= k < |args| && GoodTok(s, args[k]) => WordOf(s, args[k]))
  }

  function SpellWraps(s: string, ws: seq<Wrap>): (rs: seq<Redirection>)
    requires forall k :: 0 <= k < |ws| ==> GoodTok(s, ws[k].file)
    ensures |rs| == |ws|
    ensures forall k :: 0 <= k < |ws| ==> rs[k] == Redirection(ws[k].mode, WordOf(s, ws[k].file))
  {
    seq(|ws|, k requires 0 <= k < |ws| && GoodTok(s, ws[k].file) =>
        Redirection(ws[k].mode, WordOf(s, ws[k].file)))
  }

  /** The first of the tokens to come, and the rest. */
  lemma LexFirst(s: string, i: nat)
    requires i <= |s| && NoNul(s)
    ensures var t, ts := GetToken(s, i), Lex(s, i);
            && (t.kind == '\0' <==> ts == [])
            && (ts != [] ==> ts[0] == LexemeOf(s, t) && ts[1..] == Lex(s, t.next) && (ts[0].Word? <==> t.kind == 'a'))
  {
  }

  lemma {:induction false} RedirectedLast(c: Cmd<string>, rs: seq<Redirection>, x: Redirection)
    ensures Redirected(c, rs + [x]) == Redir(Redirected(c, rs), x.file, x.mode)
    decreases |rs|
  {
    if rs != [] {
      assert (rs + [x])[1..] == rs[1..] + [x];
      RedirectedLast(Redir(c, rs[0].file, rs[0].mode), rs[1..], x);
    } else {
      assert rs + [x] == [x] && [x][1..] == [];
    }
  }

  lemma {:induction false} SpellWrapped(s: string, c: Cmd<Tok>, ws: seq<Wrap>)
    requires AllGood(s, c) && forall k :: 0 <= k < |ws| ==> GoodTok(s, ws[k].file)
    ensures AllGood(s, Wrapped(c, ws)) && Spell(s, Wrapped(c, ws)) == Redirected(Spell(s, c), SpellWraps(s, ws))
    decreases |ws|
  {
    if ws != [] {
      var n := |ws| - 1;
      SpellWrapped(s, c, ws[..n]);
      RedirectedLast(Spell(s, c), SpellWraps(s, ws[..n]), SpellWraps(s, ws)[n]);
      assert SpellWraps(s, ws) == SpellWraps(s, ws[..n]) + [SpellWraps(s, ws)[n]];
    }
  }

  // -------------------------------------------------- each parsing function and its reader

  /** An operator and a word, in the line and among the tokens. */
  lemma RedirNext(s: string, i: nat)
    requires i <= |s| && NoNul(s)
    ensures var ts := Lex(s, i);
            && (Peek(s, i, "<>") <==> Starts(ts, "<>+"))
            && (Peek(s, i, "<>") ==>
                  var op := GetToken(s, i);
                  var file := GetToken(s, op.next);
                  && ts[0] == Op(op.kind)
                  && (file.kind == 'a' <==> |ts| >= 2 && ts[1].Word?)
                  && (file.kind == 'a' ==> ts[1] == Word(s[file.q..file.eq]) && ts[2..] == Lex(s, file.next)))
  {
    hide GetToken, Skip, Lex;
    PeekIs(s, i, "<>");
    LexFirst(s, i);
    if Peek(s, i, "<>") {
      LexFirst(s, GetToken(s, i).next);
      assert Lex(s, i) == [Lex(s, i)[0]] + Lex(s, i)[1..];
    }
  }

  lemma {:induction false} SpellMore(s: string, ws: seq<Wrap>, w: Wrap, more: seq<Redirection>)
    requires (forall k :: 0 <= k < |ws| ==> GoodTok(s, ws[k].file)) && GoodTok(s, w.file)
    ensures forall k :: 0 <= k < |ws + [w]| ==> GoodTok(s, (ws + [w])[k].file)
    ensures SpellWraps(s, ws + [w]) + more == SpellWraps(s, ws) + ([Redirection(w.mode, WordOf(s, w.file))] + more)
  {
    hide GoodTok;
    assert SpellWraps(s, ws + [w]) == SpellWraps(s, ws) + [Redirection(w.mode, WordOf(s, w.file))];
  }

  lemma {:induction false} RedirsAgree(s: string, ws: seq<Wrap>, i: nat)
    requires i <= |s| && NoNul(s) && forall k :: 0 <= k < |ws| ==> GoodTok(s, ws[k].file)
    ensures var r, q := MoreRedirs(s, ws, i), ReadRedirs(Lex(s, i));
            && (r.Redirs? <==> q.Got?)
            && (r.Redirs? ==> Lex(s, r.pos) == q.rest && SpellWraps(s, r.ws) == SpellWraps(s, ws) + q.x)
    decreases |s| - i
  {
    hide GetToken, Skip, Lex, Starts, Peek, GoodTok;
    RedirNext(s, i);
    LexSkips(s, i);
    if Peek(s, i, "<>") {
      var op := GetToken(s, i);
      var file := GetToken(s, op.next);
      if file.kind == 'a' {
        var w := Wrap(Tok(file.q, file.eq), ModeOf(op.kind));
        RedirsAgree(s, ws + [w], file.next);
        var q := ReadRedirs(Lex(s, file.next));
        SpellMore(s, ws, w, if q.Got? then q.x else []);
      }
    }
  }

  /** The words end here. */
  predicate WordsEnd(s: string, i: nat)
    requires i <= |s| && NoNul(s)
  {
    Peek(s, i, "|)&;") || GetToken(s, i).kind == '\0'
  }

  lemma {:induction false} WordsStop(s: string, args: seq<Tok>, ws: seq<Wrap>, i: nat)
    requires i <= |s| && NoNul(s) && |args| < MAXARGS && WordsEnd(s, i)
    requires forall k :: 0 <= k < |args| ==> GoodTok(s, args[k])
    requires forall k :: 0 <= k < |ws| ==> GoodTok(s, ws[k].file)
    ensures var r := ParseWords(s, args, ws, i);
            r.Done? && r.cmd == Wrapped(Exec(args), ws) && Lex(s, r.pos) == Lex(s, i)
    ensures ReadArgs(Lex(s, i), |args|) == Got([], Lex(s, i))
  {
    hide Skip, Lex, MoreRedirs, ReadRedirs;
    PeekIs(s, i, "|)&;");
    LexSkips(s, i);
    LexFirst(s, i);
  }

  /** A word is next, and the redirections behind it. */
  lemma {:induction false} WordsNext(s: string, args: seq<Tok>, ws: seq<Wrap>, i: nat)
    requires i <= |s| && NoNul(s) && |args| < MAXARGS && !WordsEnd(s, i)
    requires forall k :: 0 <= k < |args| ==> GoodTok(s, args[k])
    requires forall k :: 0 <= k < |ws| ==> GoodTok(s, ws[k].file)
    ensures var t, r, q := GetToken(s, i), ParseWords(s, args, ws, i), ReadArgs(Lex(s, i), |args|);
            if t.kind != 'a' || |args| + 1 >= MAXARGS then r.Panic? && q.Bad?
            else
              && Lex(s, i) == [Word(s[t.q..t.eq])] + Lex(s, t.next)
              && r == (match MoreRedirs(s, ws, t.next)
                       case NoFile => Panic
                       case Redirs(ws', j) => ParseWords(s, args + [Tok(t.q, t.eq)], ws', j))
              && q == (match ReadRedirs(Lex(s, t.next))
                       case Bad => Bad
                       case Got(rs, more) =>
                         match ReadArgs(more, |args| + 1)
                         case Bad => Bad
                         case Got(more', rest) => Got([Arg(s[t.q..t.eq], rs)] + more', rest))
  {
    hide GetToken, Skip, Lex, MoreRedirs, ReadRedirs, Wrapped;
    PeekIs(s, i, "|)&;");
    LexFirst(s, i);
    assert Lex(s, i) == [Lex(s, i)[0]] + Lex(s, i)[1..];
  }

  lemma {:induction false} WordsAgree(s: string, args: seq<Tok>, ws: seq<Wrap>, i: nat)
    requires i <= |s| && NoNul(s) && |args| < MAXARGS
    requires forall k :: 0 <= k < |args| ==> GoodTok(s, args[k])
    requires forall k :: 0 <= k < |ws| ==> GoodTok(s, ws[k].file)
    ensures var r, q := ParseWords(s, args, ws, i), ReadArgs(Lex(s, i), |args|);
            && (r.Done? <==> q.Got?)
            && (r.Done? ==>
                  && Lex(s, r.pos) == q.rest
                  && Spell(s, r.cmd) == Redirected(Exec(SpellWords(s, args) + ArgWords(q.x)),
                                                   SpellWraps(s, ws) + ArgRedirs(q.x)))
    decreases |s| - i
  {
    hide GetToken, Skip, Lex, MoreRedirs, ReadRedirs, Redirected, ParseWords, ReadArgs, WordsEnd, Wrapped, GoodTok;
    if WordsEnd(s, i) {
      WordsStop(s, args, ws, i);
      SpellWrapped(s, Exec(args), ws);
      assert SpellWords(s, args) + [] == SpellWords(s, args) && SpellWraps(s, ws) + [] == SpellWraps(s, ws);
    } else {
      WordsNext(s, args, ws, i);
      var t := GetToken(s, i);
      if t.kind == 'a' && |args| + 1 < MAXARGS {
        RedirsAgree(s, ws, t.next);
        var m := MoreRedirs(s, ws, t.next);
        if m.Redirs? {
          WordsAgree(s, args + [Tok(t.q, t.eq)], m.ws, m.pos);
          var q := ReadArgs(Lex(s, m.pos), |args| + 1);
          OneMore(s, args, t, ws, m.ws, ReadRedirs(Lex(s, t.next)).x, s[t.q..t.eq], if q.Got? then q.x else []);
        }
      }
    }
  }

  lemma {:induction false} OneMore(s: string, args: seq<Tok>, t: Token, ws: seq<Wrap>, ws': seq<Wrap>,
                                   rs: seq<Redirection>, w: string, more: seq<Arg>)
    requires (forall k :: 0 <= k < |args| ==> GoodTok(s, args[k])) && GoodTok(s, Tok(t.q, t.eq)) && w == s[t.q..t.eq]
    requires forall k :: 0 <= k < |ws| ==> GoodTok(s, ws[k].file)
    requires forall k :: 0 <= k < |ws'| ==> GoodTok(s, ws'[k].file)
    requires SpellWraps(s, ws') == SpellWraps(s, ws) + rs
    ensures var a := [Arg(w, rs)] + more;
            && SpellWords(s, args + [Tok(t.q, t.eq)]) + ArgWords(more) == SpellWords(s, args) + ArgWords(a)
            && SpellWraps(s, ws') + ArgRedirs(more) == SpellWraps(s, ws) + ArgRedirs(a)
  {
    var a := [Arg(w, rs)] + more;
    assert a[1..] == more;
    assert SpellWords(s, args + [Tok(t.q, t.eq)]) == SpellWords(s, args) + [w];
  }

  /** A parse and a sentence read from the same tokens. */
  ghost predicate Agrees(s: string, r: Parsed, t: Cmd<string>, rest: seq<Lexeme>)
    requires NoNul(s)
  {
    r.Done? && r.pos <= |s| && AllGood(s, r.cmd) && Spell(s, r.cmd) == t && Lex(s, r.pos) == rest
  }

  lemma {:induction false} SimpleAgrees(s: string, i: nat)
    requires i <= |s| && NoNul(s)
    ensures var r, q := ParseExec(s, i), ReadSimple(Lex(s, i));
            (r.Panic? && q.Bad?) || (q.Got? && Agrees(s, r, SimpleTree(q.x), q.rest))
    decreases |s| - i, 1
  {
    hide GetToken, Skip, Lex, MoreRedirs, ReadRedirs, Redirected, ParseLine, ReadLine, ParseWords, ReadArgs, Spell,
        Wrapped;
    PeekIs(s, i, "(");
    if Peek(s, i, "(") {
      GroupAgrees(s, i);
    } else {
      RedirsAgree(s, [], i);
      var m := MoreRedirs(s, [], i);
      if m.Redirs? {
        WordsAgree(s, [], m.ws, m.pos);
        var q := ReadArgs(Lex(s, m.pos), 0);
        if q.Got? {
          assert SpellWords(s, []) + ArgWords(q.x) == ArgWords(q.x);
          assert SpellWraps(s, []) + ReadRedirs(Lex(s, i)).x == ReadRedirs(Lex(s, i)).x;
        }
      }
    }
  }

  lemma {:induction false} GroupAgrees(s: string, i: nat)
    requires i <= |s| && NoNul(s) && Peek(s, i, "(")
    ensures var r, q := ParseBlock(s, i), ReadSimple(Lex(s, i));
            (r.Panic? && q.Bad?) || (q.Got? && Agrees(s, r, SimpleTree(q.x), q.rest))
    decreases |s| - i, 0
  {
    hide GetToken, Skip, Lex, MoreRedirs, ReadRedirs, Redirected, ParseLine, ReadLine, ParseWords, ReadArgs, Spell,
        Wrapped;
    PeekIs(s, i, "(");
    LexFirst(s, i);
    var open := GetToken(s, i);
    LineAgrees(s, open.next);
    var l := ParseLine(s, open.next);
    if l.Done? {
      PeekIs(s, l.pos, ")");
      if Peek(s, l.pos, ")") {
        LexFirst(s, l.pos);
        var close := GetToken(s, l.pos);
        RedirsAgree(s, [], close.next);
        var m := MoreRedirs(s, [], close.next);
        if m.Redirs? {
          SpellWrapped(s, l.cmd, m.ws);
          assert SpellWraps(s, []) + ReadRedirs(Lex(s, close.next)).x == ReadRedirs(Lex(s, close.next)).x;
        }
      }
    }
  }

  lemma {:induction false} PipeAgrees(s: string, i: nat)
    requires i <= |s| && NoNul(s)
    ensures var r, q := ParsePipe(s, i), ReadPipe(Lex(s, i));
            (r.Panic? && q.Bad?) || (q.Got? && Agrees(s, r, PipeTree(q.x), q.rest))
    decreases |s| - i, 2
  {
    hide GetToken, Skip, Lex, ParseExec, ReadSimple, SimpleTree;
    SimpleAgrees(s, i);
    var c := ParseExec(s, i);
    if c.Done? {
      PeekIs(s, c.pos, "|");
      LexSkips(s, c.pos);
      LexFirst(s, c.pos);
      if Peek(s, c.pos, "|") { PipeAgrees(s, GetToken(s, c.pos).next); }
    }
  }

  lemma {:induction false} BacksAgree(s: string, c: Cmd<Tok>, i: nat)
    requires i <= |s| && NoNul(s) && AllGood(s, c)
    ensures var r, ts := ParseBacks(s, c, i), Lex(s, i);
            Spell(s, r.0) == Backs(Spell(s, c), CountAmps(ts)) && Lex(s, r.1) == ts[CountAmps(ts)..]
    decreases |s| - i
  {
    hide GetToken, Skip, Lex;
    PeekIs(s, i, "&");
    LexSkips(s, i);
    LexFirst(s, i);
    if Peek(s, i, "&") {
      BacksAgree(s, Back(c), GetToken(s, i).next);
      var ts := Lex(s, i);
      assert ts[1..][CountAmps(ts[1..])..] == ts[1 + CountAmps(ts[1..])..];
    }
  }

  lemma {:induction false} LineAgrees(s: string, i: nat)
    requires i <= |s| && NoNul(s)
    ensures var r, q := ParseLine(s, i), ReadLine(Lex(s, i));
            (r.Panic? && q.Bad?) || (q.Got? && Agrees(s, r, LineTree(q.x), q.rest))
    decreases |s| - i, 3
  {
    hide GetToken, Skip, Lex, ParsePipe, ReadPipe, PipeTree, ParseBacks, CountAmps, Backs;
    PipeAgrees(s, i);
    var p := ParsePipe(s, i);
    if p.Done? {
      BacksAgree(s, p.cmd, p.pos);
      var k := ParseBacks(s, p.cmd, p.pos).1;
      PeekIs(s, k, ";");
      LexSkips(s, k);
      LexFirst(s, k);
      if Peek(s, k, ";") { LineAgrees(s, GetToken(s, k).next); }
    }
  }

  // ----------------------------------------------------------------------------- theorems

  /** The line parses to `t`. */
  ghost predicate ParsesTo(s: string, t: Cmd<string>) {
    NoNul(s) && ParseCmd(s).Done? && Spell(s, ParseCmd(s).cmd) == t
  }

  /** A line whose tokens are a sentence parses to the sentence's tree. */
  lemma ParsesSentences(s: string, l: Line)
    requires NoNul(s) && FewWords(l) && Lex(s, 0) == LineTokens(l, [])
    ensures ParsesTo(s, LineTree(l)) == true
  {
    LineRead(l, []);
    LineAgrees(s, 0);
    hide ParseLine, ReadLine, LineTree, LineTokens, GetToken;
    var j := ParseLine(s, 0).pos;
    LexFirst(s, j);
  }

  lemma ParsesOnlySentences(s: string) returns (l: Line)
    requires NoNul(s) && ParseCmd(s).Done?
    ensures FewWords(l) && Lex(s, 0) == LineTokens(l, []) && ParsesTo(s, LineTree(l)) == true
  {
    LineAgrees(s, 0);
    var q := ReadLine(Lex(s, 0));
    l := q.x;
    hide ParseLine, ReadLine, LineTree, LineTokens, GetToken;
    var j := ParseLine(s, 0).pos;
    LexFirst(s, j);
  }

  /** parsecmd accepts exactly the lines whose tokens are a sentence with fewer than ten
      words in each command; on any other it panics. */
  lemma Accepts(s: string)
    requires NoNul(s)
    ensures ParseCmd(s).Done? <==> exists l :: FewWords(l) && LineTokens(l, []) == Lex(s, 0)
  {
    hide ParseCmd, LineTokens, LineTree, FewWords, Lex;
    if ParseCmd(s).Done? { var l := ParsesOnlySentences(s); }
    forall l | FewWords(l) && LineTokens(l, []) == Lex(s, 0) ensures ParseCmd(s).Done? { ParsesSentences(s, l); }
  }

  predicate GoodTokens(ts: seq<Lexeme>) { forall k :: 0 <= k < |ts| ==> GoodLexeme(ts[k]) }

  /** A sentence written out with any blanks parses to its tree. */
  lemma AnySpacing(l: Line, gaps: seq<string>)
    requires FewWords(l) && GoodTokens(LineTokens(l, [])) && Spacing(LineTokens(l, []), gaps)
    ensures ParsesTo(Join(LineTokens(l, []), gaps), LineTree(l)) == true
  {
    var ts := LineTokens(l, []);
    var s := Join(ts, gaps);
    JoinNoNul(ts, gaps);
    assert s[0..] == s;
    LexJoin(s, 0, ts, gaps);
    ParsesSentences(s, l);
  }

  // ------------------------------------------------------------------------- a plain command

  function Bare(words: seq<string>): (args: seq<Arg>)
    ensures |args| == |words|
  {
    if words == [] then [] else [Arg(words[0], [])] + Bare(words[1..])
  }

  function AsWords(words: seq<string>): (ts: seq<Lexeme>)
    ensures |ts| == |words| && forall k :: 0 <= k < |ts| ==> ts[k] == Word(words[k])
  {
    seq(|words|, k requires 0 <= k < |words| => Word(words[k]))
  }

  lemma {:induction false} BareTokens(words: seq<string>)
    ensures ArgTokens(Bare(words), []) == AsWords(words) && ArgWords(Bare(words)) == words
            && ArgRedirs(Bare(words)) == []
    decreases |words|
  {
    if words != [] {
      var a := Bare(words);
      BareTokens(words[1..]);
      assert a[1..] == Bare(words[1..]);
      assert AsWords(words) == [Word(words[0])] + AsWords(words[1..]);
    }
  }

  /** A single command on a line: its tokens and its tree. */
  lemma Single(c: Simple, n: nat, tail: seq<Lexeme>)
    ensures var l := Last(Only(c), n);
            LineTokens(l, tail) == SimpleTokens(c, Amps(n, tail)) && LineTree(l) == Backs(SimpleTree(c), n)
            && (FewWords(l) <==> FewInSimple(c))
  {
    var p := Only(c);
    assert PipeTokens(p, Amps(n, tail)) == SimpleTokens(c, Amps(n, tail)) && PipeTree(p) == SimpleTree(c);
    assert FewInPipe(p) <==> FewInSimple(c);
  }

  lemma Grouped(l: Line, rs: seq<Redirection>, tail: seq<Lexeme>)
    ensures var c := Group(l, rs);
            && SimpleTokens(c, tail) == [Op('(')] + LineTokens(l, [Op(')')] + RedirTokens(rs, tail))
            && SimpleTree(c) == Redirected(LineTree(l), rs) && (FewInSimple(c) <==> FewWords(l))
  {
  }

  lemma BareWords(words: seq<string>, tail: seq<Lexeme>)
    ensures var c := Words([], Bare(words));
            && SimpleTokens(c, tail) == ArgTokens(Bare(words), tail) && SimpleTree(c) == Exec(words)
            && (FewInSimple(c) <==> |words| < 10)
  {
    BareTokens(words);
    assert [] + ArgRedirs(Bare(words)) == [];
  }

  /** Fewer than ten words, with blanks between them and perhaps around them, are a
      command with exactly these words. */
  lemma CommandLine(words: seq<string>, gaps: seq<string>)
    requires |words| < 10 && (forall k :: 0 <= k < |words| ==> GoodWord(words[k]))
    requires |gaps| == |words| + 1 && (forall k :: 0 <= k < |gaps| ==> Blank(gaps[k]))
    requires forall k :: 0 < k < |words| ==> gaps[k] != ""
    ensures ParsesTo(Join(AsWords(words), gaps), Exec(words)) == true
  {
    var l := Last(Only(Words([], Bare(words))), 0);
    BareTokens(words);
    BareWords(words, []);
    Single(Words([], Bare(words)), 0, []);
    hide LineTokens, LineTree, SimpleTokens, SimpleTree, ArgTokens, FewWords, FewInSimple, ParsesTo, GoodWord, Blank;
    var ts := AsWords(words);
    assert GoodTokens(ts);
    AnySpacing(l, gaps);
  }

  // -------------------------------------------------------------------------- any tree at all

  /** Fewer than ten words to a command, all words proper. */
  predicate GoodTree(t: Cmd<string>)
    decreases t
  {
    match t
    case Exec(args) => |args| < 10 && forall k :: 0 <= k < |args| ==> GoodWord(args[k])
    case Redir(d, f, _) => GoodTree(d) && GoodWord(f)
    case Pipe(l, r) => GoodTree(l) && GoodTree(r)
    case List(l, r) => GoodTree(l) && GoodTree(r)
    case Back(d) => GoodTree(d)
  }

  /** The sentence that puts every part of a tree in parentheses. */
  function Sentence(t: Cmd<string>): Line
    decreases t
  {
    match t
    case Exec(args) => Last(Only(Words([], Bare(args))), 0)
    case Redir(d, f, m) => Last(Only(Group(Sentence(d), [Redirection(m, f)])), 0)
    case Pipe(l, r) => Last(Into(Group(Sentence(l), []), Only(Group(Sentence(r), []))), 0)
    case List(l, r) => Then(Only(Group(Sentence(l), [])), 0, Last(Only(Group(Sentence(r), [])), 0))
    case Back(d) => Last(Only(Group(Sentence(d), [])), 1)
  }

  lemma {:induction false} SentenceTree(t: Cmd<string>)
    requires GoodTree(t)
    ensures FewWords(Sentence(t)) && LineTree(Sentence(t)) == t
    decreases t
  {
    hide FewInSimple, SimpleTree;
    match t
    case Exec(args) =>
      BareWords(args, []);
      Single(Words([], Bare(args)), 0, []);
    case Redir(d, f, m) =>
      SentenceTree(d);
      var rs := [Redirection(m, f)];
      assert rs[1..] == [];
      Grouped(Sentence(d), rs, []);
      Single(Group(Sentence(d), rs), 0, []);
      assert Redirected(d, rs) == Redirected(Redir(d, f, m), []);
    case Pipe(l, r) =>
      SentenceTree(l);
      SentenceTree(r);
      TwoGroups(Sentence(l), Sentence(r), []);
    case List(l, r) =>
      SentenceTree(l);
      SentenceTree(r);
      TwoGroups(Sentence(l), Sentence(r), []);
    case Back(d) =>
      SentenceTree(d);
      Grouped(Sentence(d), [], []);
      Single(Group(Sentence(d), []), 1, []);
      assert Backs(d, 1) == Backs(Back(d), 0);
  }

  /** Two groups with a bar or a semicolon between them. */
  lemma TwoGroups(l: Line, r: Line, tail: seq<Lexeme>)
    ensures var right := [Op('(')] + LineTokens(r, [Op(')')] + tail);
            var p := Last(Into(Group(l, []), Only(Group(r, []))), 0);
            var q := Then(Only(Group(l, [])), 0, Last(Only(Group(r, [])), 0));
            && LineTokens(p, tail) == [Op('(')] + LineTokens(l, [Op(')')] + ([Op('|')] + right))
            && LineTokens(q, tail) == [Op('(')] + LineTokens(l, [Op(')')] + ([Op(';')] + right))
            && LineTree(p) == Pipe(LineTree(l), LineTree(r)) && LineTree(q) == List(LineTree(l), LineTree(r))
            && (FewWords(p) <==> FewWords(l) && FewWords(r)) && (FewWords(q) <==> FewWords(l) && FewWords(r))
  {
    var a, b := Group(l, []), Group(r, []);
    var right := [Op('(')] + LineTokens(r, [Op(')')] + tail);
    Grouped(l, [], [Op('|')] + right);
    Grouped(l, [], [Op(';')] + right);
    Grouped(r, [], tail);
    Single(b, 0, tail);
    hide SimpleTokens, SimpleTree, FewInSimple;
    assert PipeTokens(Only(b), tail) == right && PipeTree(Only(b)) == LineTree(r);
    assert PipeTokens(Into(a, Only(b)), tail) == SimpleTokens(a, [Op('|')] + right);
    assert PipeTokens(Only(a), [Op(';')] + right) == SimpleTokens(a, [Op(';')] + right);
    assert FewInPipe(Only(b)) <==> FewInSimple(b);
    assert FewInPipe(Only(a)) <==> FewInSimple(a);
    assert PipeTree(Only(a)) == SimpleTree(a);
    assert PipeTree(Into(a, Only(b))) == Pipe(SimpleTree(a), PipeTree(Only(b)));
  }

  lemma {:induction false} SentenceGood(t: Cmd<string>, tail: seq<Lexeme>)
    requires GoodTree(t) && GoodTokens(tail)
    ensures GoodTokens(LineTokens(Sentence(t), tail))
    decreases t
  {
    hide SimpleTokens, LineTokens, GoodLexeme;
    OpsGood();
    match t
    case Exec(args) =>
      BareWords(args, tail);
      Single(Words([], Bare(args)), 0, tail);
      BareGood(args, tail);
    case Redir(d, f, m) =>
      var rs := [Redirection(m, f)];
      RedirGood(m, f, tail);
      Grouped(Sentence(d), rs, tail);
      Single(Group(Sentence(d), rs), 0, tail);
      SentenceGood(d, [Op(')')] + RedirTokens(rs, tail));
    case Pipe(l, r) =>
      TwoGroups(Sentence(l), Sentence(r), tail);
      SentenceGood(r, [Op(')')] + tail);
      SentenceGood(l, [Op(')')] + ([Op('|')] + ([Op('(')] + LineTokens(Sentence(r), [Op(')')] + tail))));
    case List(l, r) =>
      TwoGroups(Sentence(l), Sentence(r), tail);
      SentenceGood(r, [Op(')')] + tail);
      SentenceGood(l, [Op(')')] + ([Op(';')] + ([Op('(')] + LineTokens(Sentence(r), [Op(')')] + tail))));
    case Back(d) =>
      var after := [Op('&')] + tail;
      assert Amps(1, tail) == after;
      Grouped(Sentence(d), [], after);
      Single(Group(Sentence(d), []), 1, tail);
      SentenceGood(d, [Op(')')] + after);
  }

  lemma OpsGood()
    ensures GoodLexeme(Op('(')) && GoodLexeme(Op(')')) && GoodLexeme(Op('|'))
            && GoodLexeme(Op(';')) && GoodLexeme(Op('&'))
  {
  }

  lemma RedirGood(m: Mode, f: string, tail: seq<Lexeme>)
    requires GoodWord(f) && GoodTokens(tail)
    ensures GoodTokens(RedirTokens([Redirection(m, f)], tail))
  {
    var rs := [Redirection(m, f)];
    assert rs[1..] == [];
    assert GoodLexeme(Op(OpOf(m))) && GoodLexeme(Word(f));
    assert RedirTokens(rs, tail) == [Op(OpOf(m)), Word(f)] + tail;
  }

  lemma {:induction false} BareGood(words: seq<string>, tail: seq<Lexeme>)
    requires (forall k :: 0 <= k < |words| ==> GoodWord(words[k])) && GoodTokens(tail)
    ensures GoodTokens(ArgTokens(Bare(words), tail))
    decreases |words|
  {
    if words != [] {
      BareGood(words[1..], tail);
      assert Bare(words)[1..] == Bare(words[1..]);
    }
  }

  /** Every tree can be written, and parsing what is written gives the tree back, with
      any blanks around its tokens. */
  lemma RoundTrip(t: Cmd<string>, gaps: seq<string>)
    requires GoodTree(t) && Spacing(LineTokens(Sentence(t), []), gaps)
    ensures ParsesTo(Join(LineTokens(Sentence(t), []), gaps), t) == true
  {
    SentenceTree(t);
    SentenceGood(t, []);
    AnySpacing(Sentence(t), gaps);
  }

  function Spaces(n: nat): (gaps: seq<string>)
    ensures |gaps| == n && forall k :: 0 <= k < n ==> gaps[k] == " "
  {
    seq(n, k => " ")
  }

  /** One space around each token will do. */
  function Print(t: Cmd<string>): string {
    var ts := LineTokens(Sentence(t), []);
    Join(ts, Spaces(|ts| + 1))
  }

  lemma PrintsBack(t: Cmd<string>)
    requires GoodTree(t)
    ensures ParsesTo(Print(t), t) == true
  {
    RoundTrip(t, Spaces(|LineTokens(Sentence(t), [])| + 1));
  }
}
