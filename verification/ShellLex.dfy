/** The tokens of a line, and which lines have given tokens: those with the texts of
    the tokens in order and blanks around them. */
module ShellLex {
  import opened Shell

  datatype Lexeme = Word(w: string) | Op(k: char)

  function LexemeOf(s: string, t: Token): Lexeme
    requires t.q <= t.eq <= |s|
  {
    if t.kind == 'a' then Word(s[t.q..t.eq]) else Op(t.kind)
  }

  /** What gettoken gives, called until the end of the line. */
  function Lex(s: string, i: nat): seq<Lexeme>
    requires i <= |s| && NoNul(s)
    decreases |s| - i
  {
    var t := GetToken(s, i);
    if t.kind == '\0' then [] else [LexemeOf(s, t)] + Lex(s, t.next)
  }

  predicate Starts(ts: seq<Lexeme>, ks: string) { ts != [] && ts[0].Op? && ts[0].k in ks }

  lemma NoSpace(s: string, i: nat)
    requires i <= |s| && !Ws(At(s, i))
    ensures Skip(s, i) == i
  {
  }

  lemma TokenSkips(s: string, i: nat)
    requires i <= |s| && NoNul(s)
    ensures GetToken(s, Skip(s, i)) == GetToken(s, i)
  {
    NoSpace(s, Skip(s, i));
    hide Skip, WordEnd;
  }

  lemma {:induction false} LexSkips(s: string, i: nat)
    requires i <= |s| && NoNul(s)
    ensures Lex(s, Skip(s, i)) == Lex(s, i) && GetToken(s, Skip(s, i)) == GetToken(s, i)
  {
    hide GetToken, Skip;
    TokenSkips(s, i);
    assert Lex(s, i) == Lex(s, Skip(s, i));
  }

  /** peek of operators, in terms of the tokens to come. */
  lemma PeekIs(s: string, i: nat, toks: string)
    requires i <= |s| && NoNul(s) && forall c :: c in toks ==> Sym(c)
    ensures Peek(s, i, toks) <==> Starts(Lex(s, i), toks) || ('>' in toks && Starts(Lex(s, i), "+"))
  {
    var t := GetToken(s, i);
    if t.kind != '\0' { assert Lex(s, i)[0] == LexemeOf(s, t); }
  }

  // ------------------------------------------------------------------------- spacing

  predicate Blank(g: string) { forall k :: 0 <= k < |g| ==> g[k] in " \t\r\n\U{0B}" }

  /** A word: characters that are neither blanks nor operators. */
  predicate GoodWord(w: string) {
    w != [] && forall k :: 0 <= k < |w| ==> w[k] !in " \t\r\n\U{0B}" && w[k] !in "<|>&;()" && w[k] != '\0'
  }

  predicate GoodLexeme(t: Lexeme) {
    match t
    case Word(w) => GoodWord(w)
    case Op(k) => k in "<|>&;()+"
  }

  function Text(t: Lexeme): string {
    match t
    case Word(w) => w
    case Op(k) => if k == '+' then ">>" else [k]
  }

  /** Two tokens that would read as others if nothing stood between them. */
  predicate Clash(t: Lexeme, u: Lexeme) {
    (t.Word? && u.Word?) || (t == Op('>') && (u == Op('>') || u == Op('+')))
  }

  /** `gaps` are blanks to put before, between and behind the tokens. */
  predicate Spacing(ts: seq<Lexeme>, gaps: seq<string>) {
    && |gaps| == |ts| + 1
    && (forall k :: 0 <= k < |gaps| ==> Blank(gaps[k]))
    && (forall k :: 0 <= k < |ts| - 1 && Clash(ts[k], ts[k + 1]) ==> gaps[k + 1] != "")
  }

  function Join(ts: seq<Lexeme>, gaps: seq<string>): string
    requires |gaps| == |ts| + 1
    decreases |ts|
  {
    if ts == [] then gaps[0] else gaps[0] + (Text(ts[0]) + Join(ts[1..], gaps[1..]))
  }

  /** What stands in `s` from i on. */
  predicate Ends(s: string, i: nat, x: string) { i <= |s| && s[i..] == x }

  lemma EndsParts(s: string, i: nat, x: string, y: string)
    requires Ends(s, i, x + y) == true
    ensures Ends(s, i + |x|, y) == true && i + |x| <= |s| && forall k :: 0 <= k < |x| ==> At(s, i + k) == x[k]
  {
    assert s[i + |x|..] == (x + y)[|x|..];
    forall k | 0 <= k < |x| ensures At(s, i + k) == x[k] { assert s[i..][k] == (x + y)[k]; }
  }

  lemma EndsAt(s: string, i: nat, x: string)
    requires Ends(s, i, x) == true
    ensures At(s, i) == if x == "" then '\0' else x[0]
  {
    if x != "" { assert s[i..][0] == x[0]; }
  }

  lemma {:induction false} SkipsBlanks(s: string, i: nat, g: string, y: string)
    requires Ends(s, i, g + y) == true && Blank(g) && (y == "" || !Ws(y[0]))
    ensures Skip(s, i) == i + |g|
    decreases |g|
  {
    if g == "" {
      assert g + y == y;
      EndsAt(s, i, y);
    } else {
      assert g + y == g[..1] + (g[1..] + y);
      EndsParts(s, i, g[..1], g[1..] + y);
      assert At(s, i + 0) == g[..1][0];
      SkipsBlanks(s, i + 1, g[1..], y);
    }
  }

  lemma {:induction false} WordIs(s: string, i: nat, w: string, y: string)
    requires Ends(s, i, w + y) == true && (forall k :: 0 <= k < |w| ==> Plain(w[k]))
    requires (y == "" || !Plain(y[0])) && NoNul(s)
    ensures WordEnd(s, i) == i + |w|
    decreases |w|
  {
    if w == "" {
      assert w + y == y;
      EndsAt(s, i, y);
    } else {
      assert w + y == w[..1] + (w[1..] + y);
      EndsParts(s, i, w[..1], w[1..] + y);
      assert At(s, i + 0) == w[..1][0];
      WordIs(s, i + 1, w[1..], y);
    }
  }

  /** How a line of tokens and blanks begins, behind the first gap. */
  lemma JoinStarts(ts: seq<Lexeme>, gaps: seq<string>)
    requires |gaps| == |ts| + 1 && (forall k :: 0 <= k < |ts| ==> GoodLexeme(ts[k])) && Spacing(ts, gaps)
    ensures Join(ts, gaps) == gaps[0] + Behind(ts, gaps)
    ensures var y := Behind(ts, gaps); if ts == [] then y == "" else Text(ts[0]) != "" && Text(ts[0]) <= y && !Ws(y[0])
  {
  }

  function Behind(ts: seq<Lexeme>, gaps: seq<string>): string
    requires |gaps| == |ts| + 1
  {
    if ts == [] then "" else Text(ts[0]) + Join(ts[1..], gaps[1..])
  }

  /** The character right after a token does not change how it reads. */
  lemma AfterToken(ts: seq<Lexeme>, gaps: seq<string>)
    requires ts != [] && (forall k :: 0 <= k < |ts| ==> GoodLexeme(ts[k])) && Spacing(ts, gaps)
    ensures var y := Join(ts[1..], gaps[1..]);
            Separate(ts[0], y)
  {
    SpacingRest(ts, gaps);
    JoinStarts(ts[1..], gaps[1..]);
    if gaps[1] == "" && |ts| > 1 { assert !Clash(ts[0], ts[0 + 1]); }
  }

  lemma SpacingRest(ts: seq<Lexeme>, gaps: seq<string>)
    requires ts != [] && Spacing(ts, gaps)
    ensures Spacing(ts[1..], gaps[1..])
  {
    forall k | 0 <= k < |ts[1..]| - 1 && Clash(ts[1..][k], ts[1..][k + 1]) ensures gaps[1..][k + 1] != "" {
      assert Clash(ts[k + 1], ts[k + 1 + 1]);
    }
  }

  /** Nothing in `y` that follows token `t` changes how it reads. */
  predicate Separate(t: Lexeme, y: string) {
    y == "" || ((t.Word? ==> !Plain(y[0])) && (t == Op('>') ==> y[0] != '>'))
  }

  lemma WordAt(s: string, q: nat, w: string, y: string)
    requires NoNul(s) && GoodWord(w) && Ends(s, q, w + y) == true && Separate(Word(w), y)
    ensures Skip(s, q) == q && GetToken(s, q) == Token('a', q, q + |w|, Skip(s, q + |w|)) && s[q..q + |w|] == w
  {
    EndsParts(s, q, w, y);
    WordIs(s, q, w, y);
    assert At(s, q + 0) == w[0];
    NoSpace(s, q);
    assert s[q..q + |w|] == w;
  }

  lemma OpAt(s: string, q: nat, k: char, y: string)
    requires NoNul(s) && GoodLexeme(Op(k)) && Ends(s, q, Text(Op(k)) + y) == true && Separate(Op(k), y)
    ensures var e := q + |Text(Op(k))|; Skip(s, q) == q && e <= |s| && GetToken(s, q) == Token(k, q, e, Skip(s, e))
  {
    var x := Text(Op(k));
    EndsParts(s, q, x, y);
    EndsAt(s, q + |x|, y);
    assert At(s, q + 0) == x[0];
    if k == '+' { assert At(s, q + 1) == x[1]; }
    NoSpace(s, q);
  }

  /** One token, with blanks before it. */
  lemma ReadsFront(s: string, i: nat, g: string, t: Lexeme, y: string)
    requires NoNul(s) && Blank(g) == true && GoodLexeme(t) == true && Separate(t, y) == true
    requires Ends(s, i, g + (Text(t) + y)) == true
    ensures var u := GetToken(s, i);
            u.kind != '\0' && LexemeOf(s, u) == t && u.next == Skip(s, u.eq) && Ends(s, u.eq, y) == true
  {
    hide GetToken, Plain, Ws, Sym, Separate, Blank, Ends, Skip;
    var x, q := Text(t), i + |g|;
    TextStarts(t, y);
    SkipsBlanks(s, i, g, x + y);
    EndsParts(s, i, g, x + y);
    EndsParts(s, q, x, y);
    LexSkips(s, i);
    if t.Word? {
      WordAt(s, q, x, y);
    } else {
      OpAt(s, q, t.k, y);
      OpIsNotNul(t.k);
    }
  }

  lemma TextStarts(t: Lexeme, y: string)
    requires GoodLexeme(t) == true
    ensures Text(t) + y != "" && !Ws((Text(t) + y)[0])
  {
  }

  lemma ReadsOne(s: string, i: nat, ts: seq<Lexeme>, gaps: seq<string>)
    requires NoNul(s) && ts != [] && (forall k :: 0 <= k < |ts| ==> GoodLexeme(ts[k])) && Spacing(ts, gaps)
    requires Ends(s, i, Join(ts, gaps)) == true
    ensures var t := GetToken(s, i);
            && t.kind != '\0' && LexemeOf(s, t) == ts[0] && t.next == Skip(s, t.eq)
            && Ends(s, t.eq, Join(ts[1..], gaps[1..])) == true
  {
    AfterToken(ts, gaps);
    assert GoodLexeme(ts[0]) && Blank(gaps[0]);
    hide GetToken, Separate, Blank, Ends, Skip, GoodLexeme, Text, Spacing, LexemeOf;
    ReadsFront(s, i, gaps[0], ts[0], Join(ts[1..], gaps[1..]));
  }

  lemma OpIsNotNul(k: char)
    requires GoodLexeme(Op(k))
    ensures k != '\0' && k != 'a'
  {
  }

  lemma NoTokens(s: string, i: nat, gaps: seq<string>)
    requires NoNul(s) && Spacing([], gaps) && Ends(s, i, Join([], gaps)) == true
    ensures GetToken(s, i).kind == '\0'
  {
    assert gaps[0] + "" == gaps[0];
    SkipsBlanks(s, i, gaps[0], "");
  }

  /** The tokens of a line of tokens and blanks are those tokens. */
  lemma {:induction false} LexJoin(s: string, i: nat, ts: seq<Lexeme>, gaps: seq<string>)
    requires NoNul(s) && (forall k :: 0 <= k < |ts| ==> GoodLexeme(ts[k])) && Spacing(ts, gaps)
    requires Ends(s, i, Join(ts, gaps)) == true
    ensures Lex(s, i) == ts
    decreases |ts|
  {
    hide GetToken, Skip, GoodLexeme, Ends, LexemeOf;
    if ts == [] {
      NoTokens(s, i, gaps);
    } else {
      ReadsOne(s, i, ts, gaps);
      SpacingRest(ts, gaps);
      hide Spacing, Join;
      var t := GetToken(s, i);
      LexJoin(s, t.eq, ts[1..], gaps[1..]);
      LexSkips(s, t.eq);
      assert ts == [ts[0]] + ts[1..];
    }
  }

  lemma {:induction false} JoinNoNul(ts: seq<Lexeme>, gaps: seq<string>)
    requires (forall k :: 0 <= k < |ts| ==> GoodLexeme(ts[k])) && Spacing(ts, gaps)
    ensures NoNul(Join(ts, gaps))
    decreases |ts|
  {
    if ts != [] {
      SpacingRest(ts, gaps);
      JoinNoNul(ts[1..], gaps[1..]);
    }
  }

  // ------------------------------------------------------------------- any line at all

  lemma {:induction false} SkippedBlanks(s: string, i: nat)
    requires i <= |s|
    ensures Blank(s[i..Skip(s, i)])
    decreases |s| - i
  {
    if i < |s| && Ws(s[i]) {
      SkippedBlanks(s, i + 1);
      assert s[i..Skip(s, i)] == [s[i]] + s[i + 1..Skip(s, i + 1)];
    }
  }

  /** A token's own text stands where it was read. */
  lemma TokenText(s: string, i: nat)
    requires i <= |s| && NoNul(s) && GetToken(s, i).kind != '\0'
    ensures var t := GetToken(s, i);
            && GoodLexeme(LexemeOf(s, t)) && Text(LexemeOf(s, t)) == s[t.q..t.eq] && i < t.eq && t.q == Skip(s, i)
            && t.next == Skip(s, t.eq)
  {
  }

  /** Two tokens with nothing between them do not clash. */
  lemma NoClash(s: string, i: nat)
    requires i <= |s| && NoNul(s) && GetToken(s, i).kind != '\0'
    ensures var t := GetToken(s, i);
            var u := GetToken(s, t.eq);
            u.kind != '\0' && Clash(LexemeOf(s, t), LexemeOf(s, u)) ==> u.q != t.eq
  {
  }

  /** Every line is its tokens with blanks around them. */
  lemma {:induction false} JoinLex(s: string, i: nat) returns (gaps: seq<string>)
    requires i <= |s| && NoNul(s)
    ensures Spacing(Lex(s, i), gaps) && Join(Lex(s, i), gaps) == s[i..] && gaps[0] == s[i..Skip(s, i)]
    ensures forall k :: 0 <= k < |Lex(s, i)| ==> GoodLexeme(Lex(s, i)[k])
    decreases |s| - i
  {
    SkippedBlanks(s, i);
    var t := GetToken(s, i);
    if t.kind == '\0' {
      gaps := [s[i..Skip(s, i)]];
    } else {
      TokenText(s, i);
      NoClash(s, i);
      LexSkips(s, t.eq);
      var rest := JoinLex(s, t.eq);
      gaps := [s[i..t.q]] + rest;
      Extends(s, i, t, GetToken(s, t.eq), Lex(s, i), Lex(s, t.eq), rest, gaps);
    }
  }

  lemma Extends(s: string, i: nat, t: Token, u: Token, ts: seq<Lexeme>, more: seq<Lexeme>, rest: seq<string>,
                gaps: seq<string>)
    requires i <= t.q < t.eq <= |s| && u.q <= u.eq <= |s| && ts == [LexemeOf(s, t)] + more
            && gaps == [s[i..t.q]] + rest
    requires Spacing(more, rest) && Join(more, rest) == s[t.eq..] && GoodLexeme(LexemeOf(s, t)) && Blank(s[i..t.q])
    requires Text(LexemeOf(s, t)) == s[t.q..t.eq] && forall k :: 0 <= k < |more| ==> GoodLexeme(more[k])
    requires more != [] ==>
               && more[0] == LexemeOf(s, u) && t.eq <= u.q && rest[0] == s[t.eq..u.q]
               && (Clash(LexemeOf(s, t), LexemeOf(s, u)) ==> u.q != t.eq)
    ensures Spacing(ts, gaps) && Join(ts, gaps) == s[i..] && forall k :: 0 <= k < |ts| ==> GoodLexeme(ts[k])
  {
    hide LexemeOf, Text, GoodLexeme, Blank, Clash;
    assert ts[1..] == more && gaps[1..] == rest;
    forall k | 0 <= k < |ts| - 1 && Clash(ts[k], ts[k + 1]) ensures gaps[k + 1] != "" {
      assert gaps[k + 1] == rest[k];
      if k > 0 { assert Clash(more[k - 1], more[k - 1 + 1]); }
    }
    assert s[i..] == s[i..t.q] + (s[t.q..t.eq] + s[t.eq..]);
  }
}
