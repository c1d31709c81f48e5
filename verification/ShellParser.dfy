/** user/sh.c as it runs: a shared cursor over the line, loops, and the in-place
    termination of the words. */
module ShellParser {
  import S = Shell
  import opened Shell

  class Parser {
    const s: string
    var pos: nat               // *ps

    constructor (s: string)
      requires NoNul(s)
      ensures this.s == s && pos == 0
    {
      this.s, pos := s, 0;
    }

    ghost predicate Valid()
      reads this
    {
      NoNul(s) && pos <= |s|
    }

    /** peek and gettoken begin by skipping white space. */
    method SkipSpace()
      requires Valid()
      modifies this`pos
      ensures Valid() && pos == S.Skip(s, old(pos))
    {
      while pos < |s| && Ws(s[pos])
        invariant pos <= |s| && S.Skip(s, pos) == S.Skip(s, old(pos))
        decreases |s| - pos
      {
        pos := pos + 1;
      }
    }

    method GetToken() returns (kind: char, q: nat, eq: nat)
      requires Valid()
      modifies this`pos
      ensures Valid() && Token(kind, q, eq, pos) == S.GetToken(s, old(pos))
    {
      SkipSpace();
      q := pos;
      kind := if pos < |s| then s[pos] else '\0';
      if pos == |s| {
        eq := pos;
      } else if kind == '>' {
        pos := pos + 1;
        if pos < |s| && s[pos] == '>' {
          kind := '+';
          pos := pos + 1;
        }
        eq := pos;
      } else if Sym(kind) {
        pos := pos + 1;
        eq := pos;
      } else {
        kind := 'a';
        ghost var start := pos;
        while pos < |s| && !Ws(s[pos]) && !Sym(s[pos])
          invariant start <= pos <= |s| && S.WordEnd(s, pos) == S.WordEnd(s, start)
          decreases |s| - pos
        {
          pos := pos + 1;
        }
        eq := pos;
      }
      SkipSpace();
    }

    method Peek(toks: string) returns (yes: bool)
      requires Valid()
      modifies this`pos
      ensures Valid() && pos == S.Skip(s, old(pos)) && yes == S.Peek(s, old(pos), toks)
    {
      SkipSpace();
      yes := pos < |s| && s[pos] in toks;
    }

    /** parseredirs: the redirections that follow, after those in ws. */
    method ParseRedirs(ws: seq<Wrap>) returns (r: Redirs)
      requires Valid() && forall k :: 0 <= k < |ws| ==> GoodTok(s, ws[k].file)
      modifies this`pos
      ensures Valid() && pos >= old(pos) && r == MoreRedirs(s, ws, old(pos)) && (r.Redirs? ==> pos == r.pos)
    {
      hide S.GetToken, S.Skip, S.Peek, MoreRedirs;
      var all := ws;
      ghost var start := pos;
      var more := Peek("<>");
      while more
        invariant start <= |s| && Valid() && pos >= start >= old(pos) && pos == S.Skip(s, start)
                && more == S.Peek(s, start, "<>")
        invariant (forall k :: 0 <= k < |all| ==> GoodTok(s, all[k].file))
                && MoreRedirs(s, all, start) == MoreRedirs(s, ws, old(pos))
        decreases |s| - start
      {
        RedirsStep(s, all, start);
        var op, _, _ := GetToken();
        var kind, q, eq := GetToken();
        if kind != 'a' {
          return NoFile;
        }
        all := all + [Wrap(Tok(q, eq), ModeOf(op))];
        start := pos;
        more := Peek("<>");
      }
      RedirsStop(s, all, start);
      return Redirs(all, pos);
    }

    method ParseLine() returns (r: Parsed)
      requires Valid()
      modifies this`pos
      ensures Valid() && pos >= old(pos) && r == S.ParseLine(s, old(pos)) && (r.Done? ==> pos == r.pos)
      decreases |s| - pos, 3
    {
      hide S.GetToken, S.Skip, S.Peek, ParseBacks, S.ParsePipe;
      r := ParsePipe();
      if r.Panic? {
        return;
      }
      var c := r.cmd;
      ghost var start := pos;
      var more := Peek("&");
      while more
        invariant start <= |s| && Valid() && pos >= start >= old(pos) && pos == S.Skip(s, start)
                && more == S.Peek(s, start, "&")
        invariant AllGood(s, c) && ParseBacks(s, c, start) == ParseBacks(s, r.cmd, r.pos)
        decreases |s| - start
      {
        BacksStep(s, c, start);
        var _, _, _ := GetToken();
        c := Back(c);
        start := pos;
        more := Peek("&");
      }
      BacksStop(s, c, start);
      SkipTwice(s, start);
      var semi := Peek(";");
      if !semi {
        return Done(c, pos);
      }
      TokenMoves(s, pos, ";");
      var _, _, _ := GetToken();
      var rest := ParseLine();
      if rest.Panic? {
        return Panic;
      }
      return Done(List(c, rest.cmd), pos);
    }

    method ParsePipe() returns (r: Parsed)
      requires Valid()
      modifies this`pos
      ensures Valid() && pos >= old(pos) && r == S.ParsePipe(s, old(pos)) && (r.Done? ==> pos == r.pos)
      decreases |s| - pos, 2
    {
      hide S.GetToken, S.Skip, S.Peek, S.ParseExec;
      r := ParseExec();
      if r.Panic? {
        return;
      }
      SkipTwice(s, pos);
      var bar := Peek("|");
      if !bar {
        return Done(r.cmd, pos);
      }
      TokenMoves(s, r.pos, "|");
      var _, _, _ := GetToken();
      var right := ParsePipe();
      if right.Panic? {
        return Panic;
      }
      return Done(Pipe(r.cmd, right.cmd), pos);
    }

    method ParseExec() returns (r: Parsed)
      requires Valid()
      modifies this`pos
      ensures Valid() && pos >= old(pos) && r == S.ParseExec(s, old(pos)) && (r.Done? ==> pos == r.pos)
      decreases |s| - pos, 1
    {
      hide S.GetToken, S.Skip, S.Peek, MoreRedirs, S.ParseBlock, ParseWords;
      SkipTwice(s, pos);
      SkipKeeps(s, pos);
      var open := Peek("(");
      if open {
        r := ParseBlock();
        return;
      }
      SkipRedirs(s, [], old(pos));
      var redirs := ParseRedirs([]);
      if redirs.NoFile? {
        return Panic;
      }
      r := ParseArgs(redirs.ws);
    }

    /** parseexec's loop: words, each followed by its redirections. */
    method ParseArgs(ws0: seq<Wrap>) returns (r: Parsed)
      requires Valid() && forall k :: 0 <= k < |ws0| ==> GoodTok(s, ws0[k].file)
      modifies this`pos
      ensures Valid() && pos >= old(pos) && r == ParseWords(s, [], ws0, old(pos)) && (r.Done? ==> pos == r.pos)
    {
      hide S.GetToken, S.Skip, S.Peek, MoreRedirs, ParseWords;
      var args, ws := [], ws0;
      ghost var start := pos;
      var stop := Peek("|)&;");
      while !stop
        invariant start <= |s| && Valid() && pos >= start >= old(pos) && pos == S.Skip(s, start)
                && stop == S.Peek(s, start, "|)&;")
        invariant |args| < MAXARGS && (forall k :: 0 <= k < |args| ==> GoodTok(s, args[k]))
                && (forall k :: 0 <= k < |ws| ==> GoodTok(s, ws[k].file))
        invariant ParseWords(s, args, ws, start) == ParseWords(s, [], ws0, old(pos))
        decreases |s| - start
      {
        ArgsStep(s, args, ws, start);
        var kind, q, eq := GetToken();
        if kind == '\0' {
          return Done(Wrapped(Exec(args), ws), pos);
        }
        if kind != 'a' {
          return Panic;
        }
        args := args + [Tok(q, eq)];
        if |args| >= MAXARGS {
          return Panic;
        }
        var redirs := ParseRedirs(ws);
        if redirs.NoFile? {
          return Panic;
        }
        ws := redirs.ws;
        start := pos;
        stop := Peek("|)&;");
      }
      ArgsStop(s, args, ws, start);
      return Done(Wrapped(Exec(args), ws), pos);
    }

    method ParseBlock() returns (r: Parsed)
      requires Valid() && S.Peek(s, pos, "(")
      modifies this`pos
      ensures Valid() && pos >= old(pos) && r == S.ParseBlock(s, old(pos)) && (r.Done? ==> pos == r.pos)
      decreases |s| - pos, 0
    {
      hide S.GetToken, S.Skip, S.Peek, MoreRedirs, S.ParseLine;
      TokenMoves(s, pos, "(");
      var _, _, _ := GetToken();
      r := ParseLine();
      if r.Panic? {
        return;
      }
      SkipTwice(s, pos);
      var close := Peek(")");
      if !close {
        return Panic;
      }
      TokenMoves(s, r.pos, ")");
      var _, _, _ := GetToken();
      var redirs := ParseRedirs([]);
      if redirs.NoFile? {
        return Panic;
      }
      return Done(Wrapped(r.cmd, redirs.ws), pos);
    }

    /** parsecmd, up to nulterminate. */
    method ParseCmd() returns (r: Parsed)
      requires Valid() && pos == 0
      modifies this`pos
      ensures r == S.ParseCmd(s)
    {
      r := ParseLine();
      if r.Panic? {
        return;
      }
      var _ := Peek("");
      if pos != |s| {
        return Panic;
      }
      r := Done(r.cmd, pos);
    }
  }

  lemma TokenMoves(s: string, i: nat, toks: string)
    requires i <= |s| && NoNul(s) && S.Peek(s, i, toks)
    ensures i < S.GetToken(s, i).next <= |s| && S.GetToken(s, S.Skip(s, i)) == S.GetToken(s, i)
  {
    SkipTwice(s, i);
  }

  lemma BacksStep(s: string, c: Cmd<Tok>, i: nat)
    requires i <= |s| && NoNul(s) && AllGood(s, c) && S.Peek(s, i, "&")
    ensures i < S.GetToken(s, i).next <= |s| && S.GetToken(s, S.Skip(s, i)) == S.GetToken(s, i)
    ensures ParseBacks(s, c, i) == ParseBacks(s, Back(c), S.GetToken(s, i).next)
  {
    TokenMoves(s, i, "&");
  }

  lemma BacksStop(s: string, c: Cmd<Tok>, i: nat)
    requires i <= |s| && NoNul(s) && AllGood(s, c) && !S.Peek(s, i, "&")
    ensures ParseBacks(s, c, i) == (c, S.Skip(s, i))
  {
  }

  lemma SkipRedirs(s: string, ws: seq<Wrap>, i: nat)
    requires i <= |s| && NoNul(s) && forall k :: 0 <= k < |ws| ==> GoodTok(s, ws[k].file)
    ensures MoreRedirs(s, ws, S.Skip(s, i)) == MoreRedirs(s, ws, i)
  {
    SkipTwice(s, i);
    hide S.GetToken, S.Skip;
  }

  /** Skipping white space first changes nothing for what follows. */
  lemma SkipKeeps(s: string, i: nat)
    requires i <= |s| && NoNul(s)
    ensures S.Peek(s, S.Skip(s, i), "(") == S.Peek(s, i, "(")
    ensures S.Peek(s, i, "(") ==> S.ParseBlock(s, S.Skip(s, i)) == S.ParseBlock(s, i)
  {
    SkipTwice(s, i);
    hide S.GetToken, S.Skip, S.ParseLine, MoreRedirs;
  }

  lemma ArgsStep(s: string, args: seq<Tok>, ws: seq<Wrap>, i: nat)
    requires i <= |s| && NoNul(s) && |args| < MAXARGS && !S.Peek(s, i, "|)&;")
    requires (forall k :: 0 <= k < |args| ==> GoodTok(s, args[k])) && forall k :: 0 <= k < |ws| ==>
            GoodTok(s, ws[k].file)
    ensures S.Skip(s, i) <= |s| && S.GetToken(s, S.Skip(s, i)) == S.GetToken(s, i)
    ensures var t := S.GetToken(s, i);
            if t.kind == '\0' then ParseWords(s, args, ws, i) == Done(Wrapped(Exec(args), ws), t.next)
            else if t.kind != 'a' || |args| + 1 >= MAXARGS then ParseWords(s, args, ws, i) == Panic
            else
              && i < t.next && GoodTok(s, Tok(t.q, t.eq))
              && match MoreRedirs(s, ws, t.next)
                 case NoFile => ParseWords(s, args, ws, i) == Panic
                 case Redirs(ws', j) => ParseWords(s, args, ws, i) == ParseWords(s, args + [Tok(t.q, t.eq)], ws', j)
  {
    SkipTwice(s, i);
    hide S.GetToken, S.Skip, MoreRedirs, Wrapped;
  }

  lemma ArgsStop(s: string, args: seq<Tok>, ws: seq<Wrap>, i: nat)
    requires i <= |s| && NoNul(s) && |args| < MAXARGS && S.Peek(s, i, "|)&;")
    requires (forall k :: 0 <= k < |args| ==> GoodTok(s, args[k])) && forall k :: 0 <= k < |ws| ==>
            GoodTok(s, ws[k].file)
    ensures ParseWords(s, args, ws, i) == Done(Wrapped(Exec(args), ws), S.Skip(s, i))
  {
  }

  lemma RedirsStep(s: string, ws: seq<Wrap>, i: nat)
    requires i <= |s| && NoNul(s) && (forall k :: 0 <= k < |ws| ==> GoodTok(s, ws[k].file)) && S.Peek(s, i, "<>")
    ensures S.Skip(s, i) <= |s| && S.GetToken(s, S.Skip(s, i)) == S.GetToken(s, i)
    ensures var op := S.GetToken(s, i);
            var file := S.GetToken(s, op.next);
            if file.kind != 'a' then MoreRedirs(s, ws, i) == NoFile
            else && GoodTok(s, Tok(file.q, file.eq)) && i < file.next
                 && MoreRedirs(s, ws, i) == MoreRedirs(s, ws + [Wrap(Tok(file.q, file.eq), ModeOf(op.kind))], file.next)
  {
    SkipTwice(s, i);
    hide S.GetToken, S.Skip;
  }

  lemma RedirsStop(s: string, ws: seq<Wrap>, i: nat)
    requires i <= |s| && NoNul(s) && (forall k :: 0 <= k < |ws| ==> GoodTok(s, ws[k].file)) && !S.Peek(s, i, "<>")
    ensures MoreRedirs(s, ws, i) == Redirs(ws, S.Skip(s, i))
  {
  }

  lemma SkipTwice(s: string, i: nat)
    requires i <= |s| && NoNul(s)
    ensures S.Skip(s, S.Skip(s, i)) == S.Skip(s, i) && S.GetToken(s, S.Skip(s, i)) == S.GetToken(s, i)
  {
  }

  // ------------------------------------------------------------------------ nulterminate

  /** The positions just past the words of c, where nulterminate writes. */
  ghost function Ends(c: Cmd<Tok>): set<nat>
    decreases c
  {
    match c
    case Exec(args) => set k | 0 <= k < |args| :: args[k].eq
    case Redir(d, f, _) => Ends(d) + {f.eq}
    case Pipe(l, r) => Ends(l) + Ends(r)
    case List(l, r) => Ends(l) + Ends(r)
    case Back(d) => Ends(d)
  }

  /** The buffer holds the line and its NUL, with some word ends overwritten. */
  ghost predicate Cut(b: seq<char>, s: string, ends: set<nat>) {
    |b| == |s| + 1 && forall k :: 0 <= k <= |s| ==> b[k] == if k in ends then '\0' else At(s, k)
  }

  lemma {:induction false} EndsInside(s: string, c: Cmd<Tok>)
    requires AllGood(s, c)
    ensures forall e :: e in Ends(c) ==> e <= |s| && !Plain(At(s, e))
    decreases c
  {
    match c
    case Exec(args) =>
      forall e | e in Ends(c) ensures e <= |s| && !Plain(At(s, e)) {
        var k :| 0 <= k < |args| && args[k].eq == e;
        assert GoodTok(s, args[k]);
      }
    case Redir(d, f, _) => EndsInside(s, d);
    case Pipe(l, r) => EndsInside(s, l); EndsInside(s, r);
    case List(l, r) => EndsInside(s, l); EndsInside(s, r);
    case Back(d) => EndsInside(s, d);
  }

  /** nulterminate: a NUL behind every word, and nothing else changed. */
  method Nulterminate(c: Cmd<Tok>, b: array<char>, ghost s: string, ghost before: set<nat>)
    requires AllGood(s, c) && Cut(b[..], s, before)
    modifies b
    ensures Cut(b[..], s, before + Ends(c))
    decreases c
  {
    EndsInside(s, c);
    match c
    case Exec(args) =>
      for i := 0 to |args|
        invariant Cut(b[..], s, before + FirstEnds(args, i))
      {
        assert args[i].eq in Ends(c);
        ghost var was := b[..];
        b[args[i].eq] := '\0';
        assert b[..] == was[args[i].eq := '\0'];
      }
      assert FirstEnds(args, |args|) == Ends(c);
    case Redir(d, f, _) =>
      Nulterminate(d, b, s, before);
      ghost var was := b[..];
      b[f.eq] := '\0';
      assert b[..] == was[f.eq := '\0'];
    case Pipe(l, r) =>
      Nulterminate(l, b, s, before);
      Nulterminate(r, b, s, before + Ends(l));
      assert before + Ends(l) + Ends(r) == before + Ends(c);
    case List(l, r) =>
      Nulterminate(l, b, s, before);
      Nulterminate(r, b, s, before + Ends(l));
      assert before + Ends(l) + Ends(r) == before + Ends(c);
    case Back(d) =>
      Nulterminate(d, b, s, before);
  }

  ghost function FirstEnds(args: seq<Tok>, n: nat): set<nat>
    requires n <= |args|
  {
    set k | 0 <= k < n :: args[k].eq
  }

  /** The C string that starts at q. */
  function CString(b: seq<char>, q: nat): string
    requires q <= |b|
    decreases |b| - q
  {
    if q == |b| || b[q] == '\0' then "" else [b[q]] + CString(b, q + 1)
  }

  predicate IsWord(c: Cmd<Tok>, t: Tok)
    decreases c
  {
    match c
    case Exec(args) => t in args
    case Redir(d, f, _) => IsWord(d, t) || t == f
    case Pipe(l, r) => IsWord(l, t) || IsWord(r, t)
    case List(l, r) => IsWord(l, t) || IsWord(r, t)
    case Back(d) => IsWord(d, t)
  }

  lemma {:induction false} WordEnds(s: string, c: Cmd<Tok>, t: Tok)
    requires AllGood(s, c) && IsWord(c, t)
    ensures GoodTok(s, t) && t.eq in Ends(c)
    decreases c
  {
    match c
    case Exec(args) =>
      var k :| 0 <= k < |args| && args[k] == t;
    case Redir(d, f, _) => if t != f { WordEnds(s, d, t); }
    case Pipe(l, r) => if IsWord(l, t) { WordEnds(s, l, t); } else { WordEnds(s, r, t); }
    case List(l, r) => if IsWord(l, t) { WordEnds(s, l, t); } else { WordEnds(s, r, t); }
    case Back(d) => WordEnds(s, d, t);
  }

  /** After nulterminate every argv and file string is the word it was parsed from:
      no word's terminator falls inside another word. */
  lemma WordsSurvive(s: string, c: Cmd<Tok>, b: seq<char>, t: Tok)
    requires AllGood(s, c) && IsWord(c, t) && Cut(b, s, Ends(c))
    ensures t.q <= t.eq <= |s| && CString(b, t.q) == s[t.q..t.eq]
  {
    WordEnds(s, c, t);
    EndsInside(s, c);
    forall k | t.q <= k < t.eq ensures b[k] == s[k] != '\0' { assert Plain(s[k]) && k !in Ends(c); }
    ReadsTo(b, s, t.q, t.eq);
  }

  lemma {:induction false} ReadsTo(b: seq<char>, s: string, q: nat, e: nat)
    requires q <= e <= |s| && e < |b| && b[e] == '\0' && forall k :: q <= k < e ==> b[k] == s[k] != '\0'
    ensures CString(b, q) == s[q..e]
    decreases e - q
  {
    if q < e {
      ReadsTo(b, s, q + 1, e);
      assert s[q..e] == [s[q]] + s[q + 1..e];
    }
  }
}
