/** Printing a command tree and parsing it gives the tree back, whatever white space separates
    the tokens. */
module ShellRoundTrip {
  import opened Common
  import opened Shell
  import opened ShellGrammar

  // ---- Trees and their tokens ----

  /** How loosely the outermost operator of a tree binds. */
  function Level(t: Cmd<string>): nat {
    match t
    case List(_, _) => 3
    case Back(_) => 2
    case Pipe(_, _) => 1
    case Exec(_) => 0
    case Redir(_, _, _) => 0
  }

  function DirSym(d: Direction): Lexeme { if d == In then Sym('<') else Sym('>') }

  function Texts(ws: seq<string>): seq<Lexeme> {
    if ws == [] then [] else [Text(ws[0])] + Texts(ws[1..])
  }

  /** The tokens of a tree where an operator of level p may stand; parentheses elsewhere. */
  function Toks(t: Cmd<string>, p: nat): seq<Lexeme>
    decreases t, if Level(t) > p then 1 else 0
  {
    if Level(t) > p then [Sym('(')] + Toks(t, 3) + [Sym(')')]
    else
      match t
      case Exec(argv) => Texts(argv)
      case Redir(c, file, dir) => Toks(c, 0) + [DirSym(dir), Text(file)]
      case Pipe(l, r) => Toks(l, 0) + [Sym('|')] + Toks(r, 1)
      case Back(c) => Toks(c, 2) + [Sym('&')]
      case List(l, r) => Toks(l, 2) + [Sym(';')] + Toks(r, 3)
  }

  /** No command has more words than argv can hold. */
  predicate FewArgs(t: Cmd<string>) {
    match t
    case Exec(argv) => |argv| < MAXARGS
    case Redir(c, _, _) => FewArgs(c)
    case Pipe(l, r) => FewArgs(l) && FewArgs(r)
    case List(l, r) => FewArgs(l) && FewArgs(r)
    case Back(c) => FewArgs(c)
  }

  // ---- The tokens of a tree derive it ----

  lemma {:induction false} TextsDerive(ws: seq<string>)
    ensures WordsAndFiles(Texts(ws), ws, [])
    decreases |ws|
  {
    if ws != [] { TextsDerive(ws[1..]); }
  }

  lemma {:induction false} ToksDerive(t: Cmd<string>, p: nat)
    requires FewArgs(t) && p <= 3
    ensures Derives(Toks(t, p), t, p)
    decreases t, if Level(t) > p then 1 else 0
  {
    hide Derives, Texts, Redirections, WordsAndFiles;
    if Level(t) > p {
      ToksDerive(t, 3);
      Parenthesised(Toks(t, 3), t);
      LooserRule(Toks(t, p), t, 0, p);
    } else {
      match t {
      case Exec(argv) =>
        TextsDerive(argv);
        SimpleRule(Texts(argv), argv, []);
      case Redir(c, file, dir) =>
        ToksDerive(c, 0);
        RedirRule(Toks(c, 0), c, DirSym(dir), file);
      case Pipe(l, r) =>
        ToksDerive(l, 0);
        ToksDerive(r, 1);
        PipeRule(Toks(l, 0), l, Toks(r, 1), r);
      case Back(c) =>
        ToksDerive(c, 2);
        BackRule(Toks(c, 2), c);
      case List(l, r) =>
        ToksDerive(l, 2);
        ToksDerive(r, 3);
        ListRule(Toks(l, 2), l, Toks(r, 3), r);
      }
      LooserRule(Toks(t, p), t, Level(t), p);
    }
  }

  lemma {:induction false} Parenthesised(x: seq<Lexeme>, t: Cmd<string>)
    requires Derives(x, t, 3)
    ensures Derives([Sym('(')] + x + [Sym(')')], t, 0)
  {
    BlockRule(x, t, [], []);
    assert [Sym('(')] + x + [Sym(')')] + [] == [Sym('(')] + x + [Sym(')')];
  }

  /** A line whose tokens are those of a tree, however they are spaced, parses to that tree. */
  lemma {:induction false} ParsesBack(s: string, t: Cmd<string>)
    requires CString(s) && FewArgs(t) && Lex(s, 0) == Toks(t, 3)
    ensures var r := ParseCmd(s); r.Ok? && Read(s, r.value) == t
  {
    ToksDerive(t, 3);
    ParsesIffDerives(s, t);
  }

  // ---- Printing ----

  /** Words are nonempty and free of white space and symbols. */
  predicate Plain(w: string) { w != [] && forall k :: 0 <= k < |w| ==> IsWordChar(w[k]) }

  predicate Printable(t: Cmd<string>) {
    match t
    case Exec(argv) => |argv| < MAXARGS && forall k :: 0 <= k < |argv| ==> Plain(argv[k])
    case Redir(c, file, _) => Printable(c) && Plain(file)
    case Pipe(l, r) => Printable(l) && Printable(r)
    case List(l, r) => Printable(l) && Printable(r)
    case Back(c) => Printable(c)
  }

  predicate Proper(x: Lexeme) {
    match x
    case Sym(c) => IsSymbol(c) || c == '+'
    case Text(w) => Plain(w)
  }

  predicate AllProper(xs: seq<Lexeme>) { forall k :: 0 <= k < |xs| ==> Proper(xs[k]) }

  function Spelling(x: Lexeme): string {
    match x
    case Sym(c) => if c == '+' then ">>" else [c]
    case Text(w) => w
  }

  /** The tokens, each followed by a space. */
  function Render(xs: seq<Lexeme>): string {
    if xs == [] then [] else Spelling(xs[0]) + [' '] + Render(xs[1..])
  }

  function Print(t: Cmd<string>): string { Render(Toks(t, 3)) }

  lemma {:induction false} TextsProper(ws: seq<string>)
    requires forall k :: 0 <= k < |ws| ==> Plain(ws[k])
    ensures AllProper(Texts(ws))
    decreases |ws|
  {
    if ws != [] { TextsProper(ws[1..]); }
  }

  lemma {:induction false} ToksProper(t: Cmd<string>, p: nat)
    requires Printable(t)
    ensures AllProper(Toks(t, p)) && FewArgs(t)
    decreases t, if Level(t) > p then 1 else 0
  {
    if Level(t) > p {
      ToksProper(t, 3);
    } else {
      match t
      case Exec(argv) => TextsProper(argv);
      case Redir(c, _, _) => ToksProper(c, 0);
      case Pipe(l, r) => ToksProper(l, 0); ToksProper(r, 1);
      case Back(c) => ToksProper(c, 2);
      case List(l, r) => ToksProper(l, 2); ToksProper(r, 3);
    }
  }

  lemma {:induction false} RenderCString(xs: seq<Lexeme>)
    requires AllProper(xs)
    ensures CString(Render(xs)) && (xs != [] ==> Render(xs) != [] && !IsSpace(Render(xs)[0]))
    decreases |xs|
  {
    if xs != [] {
      assert Proper(xs[0]);
      RenderCString(xs[1..]);
    }
  }

  /** One rendered token at position i is what gettoken finds there. */
  lemma {:induction false} TokenAt(s: string, i: nat, x: Lexeme)
    requires CString(s) && Proper(x) && i + |Spelling(x)| < |s|
    requires s[i..i + |Spelling(x)|] == Spelling(x) && s[i + |Spelling(x)|] == ' '
    requires i + |Spelling(x)| + 1 < |s| ==> !IsSpace(s[i + |Spelling(x)| + 1])
    ensures var t := GetToken(s, i);
            && t.q == i && t.eq == i + |Spelling(x)| && t.next == t.eq + 1
            && t.ret == (if x.Sym? then x.ret else 'a')
  {
    var n := |Spelling(x)|;
    assert forall k :: 0 <= k < n ==> s[i + k] == Spelling(x)[k];
    assert s[i] == Spelling(x)[0] && Skip(s, i) == i;
    if x.Text? {
      assert forall k :: i <= k < i + n ==> IsWordChar(s[k]) by {
        forall k | i <= k < i + n ensures IsWordChar(s[k]) { assert s[k] == Spelling(x)[k - i]; }
      }
      assert WordEnd(s, i) == i + n;
    }
    assert Skip(s, i + n) == i + n + 1;
  }

  lemma {:induction false} LexemeAt(s: string, i: nat, x: Lexeme)
    requires CString(s) && Proper(x) && i + |Spelling(x)| < |s|
    requires s[i..i + |Spelling(x)|] == Spelling(x) && s[i + |Spelling(x)|] == ' '
    requires i + |Spelling(x)| + 1 < |s| ==> !IsSpace(s[i + |Spelling(x)| + 1])
    ensures Lex(s, i) == [x] + Lex(s, i + |Spelling(x)| + 1)
  {
    hide GetToken, Skip;
    TokenAt(s, i, x);
  }

  lemma {:induction false} LexRender(s: string, i: nat, xs: seq<Lexeme>)
    requires CString(s) && i <= |s| && AllProper(xs) && s[i..] == Render(xs)
    ensures Lex(s, i) == xs
    decreases |xs|
  {
    hide Lex, Spelling, IsSpace, Proper;
    if xs == [] {
      AtEnd(s, i);
    } else {
      var n := |Spelling(xs[0])|;
      RenderCString(xs[1..]);
      Parts(s, i, Spelling(xs[0]), Render(xs[1..]));
      assert Proper(xs[0]);
      LexemeAt(s, i, xs[0]);
      LexRender(s, i + n + 1, xs[1..]);
    }
  }

  lemma {:induction false} AtEnd(s: string, i: nat)
    requires CString(s) && i == |s|
    ensures Lex(s, i) == []
  {
  }

  lemma {:induction false} Parts(s: string, i: nat, a: string, b: string)
    requires i <= |s| && s[i..] == a + [' '] + b
    ensures i + |a| < |s| && s[i..i + |a|] == a && s[i + |a|] == ' ' && s[i + |a| + 1..] == b
    ensures b != [] ==> i + |a| + 1 < |s| && s[i + |a| + 1] == b[0]
    ensures b == [] ==> i + |a| + 1 == |s|
  {
    assert forall k :: 0 <= k < |s| - i ==> s[i + k] == s[i..][k];
    assert s[i..i + |a|] == s[i..][..|a|];
    assert s[i + |a| + 1..] == s[i..][|a| + 1..];
    assert s[i + |a|] == s[i..][|a|];
  }

  /** Printing any tree and parsing the result gives the tree back. */
  lemma {:induction false} RoundTrip(t: Cmd<string>)
    requires Printable(t)
    ensures CString(Print(t))
    ensures var r := ParseCmd(Print(t)); r.Ok? && Read(Print(t), r.value) == t
  {
    hide Toks, Render, ParseCmd, Lex;
    ToksProper(t, 3);
    RenderCString(Toks(t, 3));
    LexRender(Print(t), 0, Toks(t, 3));
    ParsesBack(Print(t), t);
  }

  /** Every tree the parser builds is one of those. */
  lemma {:induction false} ParsedIsPrintable(s: string, cmd: Cmd<Word>)
    requires Sound(s, cmd)
    ensures Printable(Read(s, cmd))
  {
    match cmd
    case Exec(argv) =>
      forall k | 0 <= k < |argv| ensures Plain(ReadWords(s, argv)[k]) { WordPlain(s, argv[k]); }
    case Redir(c, file, _) => ParsedIsPrintable(s, c); WordPlain(s, file);
    case Pipe(l, r) => ParsedIsPrintable(s, l); ParsedIsPrintable(s, r);
    case List(l, r) => ParsedIsPrintable(s, l); ParsedIsPrintable(s, r);
    case Back(c) => ParsedIsPrintable(s, c);
  }

  lemma {:induction false} WordPlain(s: string, w: Word)
    requires IsWord(s, w)
    ensures Plain(s[w.q..w.eq])
  {
  }
}
