/** The grammar of command lines, and that the parser of user/sh.c accepts exactly it: a line parses
    to a tree if and only if its tokens derive that tree. */
module ShellGrammar {
  import opened Common
  import opened Shell

  // ---- Lines as token sequences ----

  datatype Lexeme = Sym(ret: char) | Text(text: string)

  function Lex(s: string, i: nat): seq<Lexeme>
    requires CString(s) && i <= |s|
    decreases |s| - i
  {
    var t := GetToken(s, i);
    if t.ret == NUL then []
    else [if t.ret == 'a' then Text(s[t.q..t.eq]) else Sym(t.ret)] + Lex(s, t.next)
  }

  /** The character that peek sees at the start of a lexeme. */
  function Front(x: Lexeme): char {
    match x
    case Sym(c) => if c == '+' then '>' else c
    case Text(w) => CharAt(w, 0)
  }

  lemma {:induction false} SkipTwice(s: string, i: nat)
    requires CString(s) && i <= |s|
    ensures Skip(s, Skip(s, i)) == Skip(s, i) && GetToken(s, Skip(s, i)) == GetToken(s, i)
    ensures Lex(s, Skip(s, i)) == Lex(s, i)
  {
  }

  predicate StartsWith(x: seq<Lexeme>, cs: string) { x != [] && Front(x[0]) in cs }

  /** What gettoken and peek say about the first lexeme. */
  lemma {:induction false} First(s: string, i: nat, cs: string)
    requires CString(s) && i <= |s|
    ensures Peek(s, i, cs) <==> StartsWith(Lex(s, i), cs)
    ensures GetToken(s, Skip(s, i)) == GetToken(s, i) && Lex(s, Skip(s, i)) == Lex(s, i)
    ensures Lex(s, i) == [] <==> GetToken(s, i).ret == NUL
    ensures Lex(s, i) == [] ==> Lex(s, GetToken(s, i).next) == [] && Skip(s, i) == |s|
    ensures Lex(s, i) != [] ==> Lex(s, i)[1..] == Lex(s, GetToken(s, i).next)
    ensures Lex(s, i) != [] && Lex(s, i)[0].Sym? ==> GetToken(s, i).ret == Lex(s, i)[0].ret != 'a'
    ensures Lex(s, i) != [] && Lex(s, i)[0].Text? ==>
      var t := GetToken(s, i);
      && t.ret == 'a' && Lex(s, i)[0].text == s[t.q..t.eq] && IsWord(s, Word(t.q, t.eq))
      && IsWordChar(Front(Lex(s, i)[0]))
  {
    SkipTwice(s, i);
  }

  /** White space and symbols, spelled out. */
  predicate Blank(c: char) { c in " \t\r\n\U{000b}" }

  predicate Special(c: char) { c in "<|>&;()" }

  /** The characters from i to before j are neither, and go as far as possible. */
  predicate WordRun(s: string, i: nat, j: nat) {
    && i < j <= |s| && (forall k :: i <= k < j ==> !Blank(s[k]) && !Special(s[k]))
    && (j < |s| ==> Blank(s[j]) || Special(s[j]))
  }

  /** The tokens of a line, character by character: white space is skipped, two adjacent arrows are one
      token, any other symbol is a token, and so is a run of other characters as long as it goes. */
  lemma {:induction false} LexLaws(s: string, i: nat, j: nat)
    requires CString(s) && i <= j <= |s|
    ensures i == |s| ==> Lex(s, i) == []
    ensures i < |s| && Blank(s[i]) ==> Lex(s, i) == Lex(s, i + 1)
    ensures i + 1 < |s| && s[i] == s[i + 1] == '>' ==> Lex(s, i) == [Sym('+')] + Lex(s, i + 2)
    ensures i < |s| && Special(s[i]) && !(i + 1 < |s| && s[i] == s[i + 1] == '>') ==>
              Lex(s, i) == [Sym(s[i])] + Lex(s, i + 1)
    ensures WordRun(s, i, j) ==> Lex(s, i) == [Text(s[i..j])] + Lex(s, j)
  {
    hide Lex, GetToken, Skip, IsSpace, IsSymbol;
    CharClasses();
    TokenClasses(s, i, j);
    if i < |s| {
      LexFirst(s, i);
      SkipTwice(s, GetToken(s, i).eq);
      SkipTwice(s, i);
      if Blank(s[i]) { SkipTwice(s, i + 1); }
    } else {
      LexFirst(s, i);
    }
  }

  lemma {:induction false} CharClasses()
    ensures forall c :: Blank(c) <==> IsSpace(c)
    ensures forall c :: Special(c) <==> IsSymbol(c)
  {
  }

  lemma {:induction false} LexFirst(s: string, i: nat)
    requires CString(s) && i <= |s|
    ensures var t := GetToken(s, i);
            && t.next == Skip(s, t.eq)
            && Lex(s, i) == if t.ret == NUL then []
                            else [if t.ret == 'a' then Text(s[t.q..t.eq]) else Sym(t.ret)] + Lex(s, t.next)
  {
  }

  lemma {:induction false} TokenClasses(s: string, i: nat, j: nat)
    requires CString(s) && i <= j <= |s|
    ensures var t := GetToken(s, i);
            && (i == |s| ==> t.ret == NUL)
            && (i < |s| && IsSpace(s[i]) ==> Skip(s, i) == Skip(s, i + 1))
            && (i + 1 < |s| && s[i] == s[i + 1] == '>' ==> t.ret == '+' && t.eq == i + 2)
            && (i < |s| && IsSymbol(s[i]) && !(i + 1 < |s| && s[i] == s[i + 1] == '>') ==>
                  t.ret == s[i] && t.ret != NUL && t.ret != 'a' && t.eq == i + 1)
            && (WordRun(s, i, j) ==> t.ret == 'a' && t.q == i && t.eq == j)
  {
    hide Blank, Special;
    CharClasses();
    if WordRun(s, i, j) {
      assert s[i] != NUL;
      assert Skip(s, i) == i;
    }
  }

  // ---- Parsed commands as trees ----

  /** The tree that a parsed command stands for. */
  function Read(s: string, cmd: Cmd<Word>): Cmd<string>
    requires Sound(s, cmd)
  {
    match cmd
    case Exec(argv) => Exec(ReadWords(s, argv))
    case Redir(c, file, dir) => Redir(Read(s, c), s[file.q..file.eq], dir)
    case Pipe(l, r) => Pipe(Read(s, l), Read(s, r))
    case List(l, r) => List(Read(s, l), Read(s, r))
    case Back(c) => Back(Read(s, c))
  }

  function ReadWords(s: string, argv: seq<Word>): (r: seq<string>)
    requires AllWords(s, argv)
    ensures |r| == |argv| && forall k :: 0 <= k < |r| ==> r[k] == s[argv[k].q..argv[k].eq]
  {
    seq(|argv|, k requires 0 <= k < |argv| => s[argv[k].q..argv[k].eq])
  }

  function ReadFiles(s: string, redirs: seq<(Word, Direction)>): (r: seq<(string, Direction)>)
    requires AllFiles(s, redirs)
    ensures |r| == |redirs| && forall k :: 0 <= k < |r| ==> r[k] == (s[redirs[k].0.q..redirs[k].0.eq], redirs[k].1)
  {
    seq(|redirs|, k requires 0 <= k < |redirs| => (s[redirs[k].0.q..redirs[k].0.eq], redirs[k].1))
  }

  lemma {:induction false} ReadWrap(s: string, cmd: Cmd<Word>, redirs: seq<(Word, Direction)>)
    requires Sound(s, cmd) && AllFiles(s, redirs)
    ensures Sound(s, Wrap(cmd, redirs)) && Read(s, Wrap(cmd, redirs)) == Wrap(Read(s, cmd), ReadFiles(s, redirs))
    decreases |redirs|
  {
    WrapSound(s, cmd, redirs);
    if redirs != [] {
      var init := redirs[..|redirs| - 1];
      ReadWrap(s, cmd, init);
      assert ReadFiles(s, redirs)[..|redirs| - 1] == ReadFiles(s, init);
    }
  }

  // ---- The grammar ----

  predicate IsArrow(x: Lexeme) { x == Sym('<') || x == Sym('>') || x == Sym('+') }

  function DirOf(x: Lexeme): Direction { if x == Sym('<') then In else Out }

  /** Arrows, each followed by a file name. */
  predicate Redirections(x: seq<Lexeme>, files: seq<(string, Direction)>)
    decreases |files|
  {
    if files == [] then x == []
    else
      && |x| >= 2 && IsArrow(x[0]) && x[1] == Text(files[0].0) && DirOf(x[0]) == files[0].1
      && Redirections(x[2..], files[1..])
  }

  /** Words and redirections in any order. */
  predicate WordsAndFiles(x: seq<Lexeme>, ws: seq<string>, files: seq<(string, Direction)>)
    decreases |x|
  {
    if x == [] then ws == [] && files == []
    else if x[0].Text? then ws != [] && ws[0] == x[0].text && WordsAndFiles(x[1..], ws[1..], files)
    else
      && |x| >= 2 && IsArrow(x[0]) && files != [] && x[1] == Text(files[0].0) && DirOf(x[0]) == files[0].1
      && WordsAndFiles(x[2..], ws, files[1..])
  }

  /** The number of redirections around a tree. */
  function Depth(t: Cmd<string>): nat { if t.Redir? then 1 + Depth(t.cmd) else 0 }

  /** A tree without its n outer redirections, and those, innermost first. */
  function Strip(t: Cmd<string>, n: nat): Cmd<string>
    requires n <= Depth(t)
  {
    if n == 0 then t else Strip(t.cmd, n - 1)
  }

  function Outer(t: Cmd<string>, n: nat): (r: seq<(string, Direction)>)
    requires n <= Depth(t)
    ensures |r| == n
  {
    if n == 0 then [] else Outer(t.cmd, n - 1) + [(t.file, t.dir)]
  }

  predicate SimpleCommand(x: seq<Lexeme>, t: Cmd<string>) {
    var e := Strip(t, Depth(t));
    e.Exec? && |e.argv| < MAXARGS && WordsAndFiles(x, e.argv, Outer(t, Depth(t)))
  }

  /** x is '(', something up to ')' at k, and the n outer redirections of t. */
  predicate Block(x: seq<Lexeme>, t: Cmd<string>, k: nat, n: nat) {
    && 1 <= k < |x| && n <= Depth(t) && x[0] == Sym('(') && x[k] == Sym(')')
    && Redirections(x[k + 1..], Outer(t, n))
  }

  predicate CutAt(x: seq<Lexeme>, k: nat, c: char) { k < |x| && x[k] == Sym(c) }

  /** The tokens x derive tree t as a command (0), pipeline (1), pipeline with ampersands (2) or
      line (3). */
  ghost predicate Derives(x: seq<Lexeme>, t: Cmd<string>, p: nat)
    decreases |x|, p
  {
    if p == 0 then
      SimpleCommand(x, t) || exists k: nat, n: nat :: Block(x, t, k, n) && Derives(x[1..k], Strip(t, n), 3)
    else if p == 1 then
      || Derives(x, t, 0)
      || (t.Pipe? && exists k: nat :: CutAt(x, k, '|') && Derives(x[..k], t.left, 0) && Derives(x[k + 1..], t.right, 1))
    else if p == 2 then
      || Derives(x, t, 1)
      || (t.Back? && x != [] && x[|x| - 1] == Sym('&') && Derives(x[..|x| - 1], t.cmd, 2))
    else
      || Derives(x, t, 2)
      || (t.List? && exists k: nat :: CutAt(x, k, ';') && Derives(x[..k], t.left, 2) && Derives(x[k + 1..], t.right, 3))
  }

  /** Putting redirections around a tree and taking them off again. */
  lemma {:induction false} StripWrap(t: Cmd<string>, files: seq<(string, Direction)>)
    ensures var w := Wrap(t, files);
            && |files| + Depth(t) == Depth(w) && Strip(w, |files|) == t && Outer(w, |files|) == files
    decreases |files|
  {
    if files != [] { StripWrap(t, files[..|files| - 1]); }
  }

  lemma {:induction false} WrapStrip(t: Cmd<string>, n: nat)
    requires n <= Depth(t)
    ensures t == Wrap(Strip(t, n), Outer(t, n))
  {
    if n > 0 {
      WrapStrip(t.cmd, n - 1);
      assert Outer(t, n)[..n - 1] == Outer(t.cmd, n - 1);
    }
  }

  // ---- The rules of the grammar ----

  lemma {:induction false} SimpleRule(x: seq<Lexeme>, ws: seq<string>, files: seq<(string, Direction)>)
    requires WordsAndFiles(x, ws, files) && |ws| < MAXARGS
    ensures Derives(x, Wrap(Exec(ws), files), 0)
  {
    StripWrap(Exec(ws), files);
  }

  lemma {:induction false} BlockRule(x: seq<Lexeme>, t: Cmd<string>, y: seq<Lexeme>, files: seq<(string, Direction)>)
    requires Derives(x, t, 3) && Redirections(y, files)
    ensures Derives([Sym('(')] + x + [Sym(')')] + y, Wrap(t, files), 0)
  {
    hide SimpleCommand, Redirections, Wrap, Strip, Outer, Depth;
    StripWrap(t, files);
    var z := [Sym('(')] + x + [Sym(')')] + y;
    assert z[1..1 + |x|] == x && z[|x| + 2..] == y;
    assert Block(z, Wrap(t, files), 1 + |x|, |files|);
  }

  lemma {:induction false} PipeRule(x: seq<Lexeme>, t: Cmd<string>, y: seq<Lexeme>, u: Cmd<string>)
    requires Derives(x, t, 0) && Derives(y, u, 1)
    ensures Derives(x + [Sym('|')] + y, Pipe(t, u), 1)
  {
    var z := x + [Sym('|')] + y;
    assert z[..|x|] == x && z[|x| + 1..] == y && CutAt(z, |x|, '|');
  }

  lemma {:induction false} BackRule(x: seq<Lexeme>, t: Cmd<string>)
    requires Derives(x, t, 2)
    ensures Derives(x + [Sym('&')], Back(t), 2)
  {
    assert (x + [Sym('&')])[..|x|] == x;
  }

  lemma {:induction false} ListRule(x: seq<Lexeme>, t: Cmd<string>, y: seq<Lexeme>, u: Cmd<string>)
    requires Derives(x, t, 2) && Derives(y, u, 3)
    ensures Derives(x + [Sym(';')] + y, List(t, u), 3)
  {
    var z := x + [Sym(';')] + y;
    assert z[..|x|] == x && z[|x| + 1..] == y && CutAt(z, |x|, ';');
  }

  /** One more redirection behind a command. */
  lemma {:induction false} RedirRule(x: seq<Lexeme>, t: Cmd<string>, a: Lexeme, file: string)
    requires Derives(x, t, 0) && IsArrow(a)
    ensures Derives(x + [a, Text(file)], Redir(t, file, DirOf(a)), 0)
  {
    hide SimpleCommand, Redirections;
    if SimpleCommand(x, t) {
      SimpleThenFile(x, t, a, file);
    } else {
      var k: nat, n: nat :| Block(x, t, k, n) && Derives(x[1..k], Strip(t, n), 3);
      BlockThenFile(x, t, k, n, a, file);
      assert (x + [a, Text(file)])[1..k] == x[1..k];
    }
  }

  lemma {:induction false} SimpleThenFile(x: seq<Lexeme>, t: Cmd<string>, a: Lexeme, file: string)
    requires SimpleCommand(x, t) && IsArrow(a)
    ensures SimpleCommand(x + [a, Text(file)], Redir(t, file, DirOf(a)))
  {
    hide WordsAndFiles;
    WordsThenFile(x, Strip(t, Depth(t)).argv, Outer(t, Depth(t)), a, file);
  }

  lemma {:induction false} BlockThenFile(x: seq<Lexeme>, t: Cmd<string>, k: nat, n: nat, a: Lexeme, file: string)
    requires Block(x, t, k, n) && IsArrow(a)
    ensures k <= |x| && n <= Depth(t) && Block(x + [a, Text(file)], Redir(t, file, DirOf(a)), k, n + 1)
    ensures Strip(Redir(t, file, DirOf(a)), n + 1) == Strip(t, n)
  {
    hide Redirections;
    FilesThenFile(x[k + 1..], Outer(t, n), a, file);
    assert (x + [a, Text(file)])[k + 1..] == x[k + 1..] + [a, Text(file)];
  }

  lemma {:induction false} FilesThenFile(x: seq<Lexeme>, files: seq<(string, Direction)>, a: Lexeme, file: string)
    requires Redirections(x, files) && IsArrow(a)
    ensures Redirections(x + [a, Text(file)], files + [(file, DirOf(a))])
    decreases |files|
  {
    var z, more := x + [a, Text(file)], files + [(file, DirOf(a))];
    if files == [] {
      assert z[2..] == [] && more[1..] == [];
    } else {
      FilesThenFile(x[2..], files[1..], a, file);
      assert z[2..] == x[2..] + [a, Text(file)] && more[1..] == files[1..] + [(file, DirOf(a))];
    }
  }

  lemma {:induction false} WordsThenFile(x: seq<Lexeme>, ws: seq<string>, files: seq<(string, Direction)>, a: Lexeme,
                                         file: string)
    requires WordsAndFiles(x, ws, files) && IsArrow(a)
    ensures WordsAndFiles(x + [a, Text(file)], ws, files + [(file, DirOf(a))])
    decreases |x|
  {
    var z, more := x + [a, Text(file)], files + [(file, DirOf(a))];
    if x == [] {
      assert z[2..] == [] && more[1..] == [];
    } else if x[0].Text? {
      WordsThenFile(x[1..], ws[1..], files, a, file);
      assert z[1..] == x[1..] + [a, Text(file)];
    } else {
      WordsThenFile(x[2..], ws, files[1..], a, file);
      assert z[2..] == x[2..] + [a, Text(file)] && more[1..] == files[1..] + [(file, DirOf(a))];
    }
  }

  /** A derivation at one level is one at every looser level. */
  lemma {:induction false} LooserRule(x: seq<Lexeme>, t: Cmd<string>, p: nat, q: nat)
    requires Derives(x, t, p) && p <= q <= 3
    ensures Derives(x, t, q)
    decreases q
  {
    if p < q { LooserRule(x, t, p, q - 1); }
  }

  /** Redirections in front of words and redirections. */
  lemma {:induction false} FilesFirst(x: seq<Lexeme>, f: seq<(string, Direction)>, y: seq<Lexeme>, ws: seq<string>,
                                      files: seq<(string, Direction)>)
    requires Redirections(x, f) && WordsAndFiles(y, ws, files)
    ensures WordsAndFiles(x + y, ws, f + files)
    decreases |f|
  {
    if f == [] {
      assert x + y == y && f + files == files;
    } else {
      FilesFirst(x[2..], f[1..], y, ws, files);
      assert (x + y)[2..] == x[2..] + y && (f + files)[1..] == f[1..] + files;
    }
  }

  /** The redirections at the front, as far as they go. */
  lemma {:induction false} Leading(x: seq<Lexeme>, ws: seq<string>, files: seq<(string, Direction)>)
    returns (m: nat, n: nat)
    requires WordsAndFiles(x, ws, files)
    ensures m <= |x| && n <= |files| && Redirections(x[..m], files[..n]) && WordsAndFiles(x[m..], ws, files[n..])
    ensures x[m..] == [] || x[m..][0].Text?
    decreases |x|
  {
    if x == [] || x[0].Text? {
      m, n := 0, 0;
      assert x[0..] == x && files[0..] == files;
    } else {
      m, n := Leading(x[2..], ws, files[1..]);
      assert x[..m + 2][2..] == x[2..][..m] && files[..n + 1][1..] == files[1..][..n];
      assert x[2..][m..] == x[m + 2..] && files[1..][n..] == files[n + 1..];
      m, n := m + 2, n + 1;
    }
  }

  // ---- What the tokens derive, the parser builds ----

  /** The rest of a line after a command of some level: nothing, or one of the characters. */
  predicate Follows(x: seq<Lexeme>, cs: string) { x == [] || (x[0].Sym? && x[0].ret in cs) }

  lemma {:induction false} RedirsRead(s: string, redirs: seq<(Word, Direction)>, i: nat, x: seq<Lexeme>,
                                      files: seq<(string, Direction)>, rest: seq<Lexeme>)
    requires CString(s) && i <= |s| && AllFiles(s, redirs)
    requires Lex(s, i) == x + rest && Redirections(x, files) && !StartsWith(rest, "<>")
    ensures var r := ParseRedirs(s, redirs, i);
            r.Ok? && Lex(s, r.pos) == rest && ReadFiles(s, r.value) == ReadFiles(s, redirs) + files
    decreases |files|
  {
    hide GetToken, Skip, Lex, Peek, IsWord, ReadFiles, ParseRedirs, Front;
    if files == [] {
      assert Lex(s, i) == rest;
      RedirsStop(s, redirs, i);
      assert ReadFiles(s, redirs) + files == ReadFiles(s, redirs);
    } else {
      RedirsStep(s, redirs, i);
      var file := GetToken(s, GetToken(s, i).next);
      var one := redirs + [(Word(file.q, file.eq), files[0].1)];
      assert Lex(s, file.next) == x[2..] + rest;
      RedirsRead(s, one, file.next, x[2..], files[1..], rest);
      assert ReadFiles(s, one) + files[1..] == ReadFiles(s, redirs) + files;
    }
  }

  lemma {:induction false} RedirsStop(s: string, redirs: seq<(Word, Direction)>, i: nat)
    requires CString(s) && i <= |s| && AllFiles(s, redirs) && !StartsWith(Lex(s, i), "<>")
    ensures ParseRedirs(s, redirs, i) == Ok(redirs, Skip(s, i)) && Lex(s, Skip(s, i)) == Lex(s, i)
  {
    First(s, i, "<>");
  }

  lemma {:induction false} RedirsStep(s: string, redirs: seq<(Word, Direction)>, i: nat)
    requires CString(s) && i <= |s| && AllFiles(s, redirs)
    requires |Lex(s, i)| >= 2 && IsArrow(Lex(s, i)[0]) && Lex(s, i)[1].Text?
    ensures var file := GetToken(s, GetToken(s, i).next);
            var d := DirOf(Lex(s, i)[0]);
            var one := redirs + [(Word(file.q, file.eq), d)];
            && AllFiles(s, one) && ReadFiles(s, one) == ReadFiles(s, redirs) + [(Lex(s, i)[1].text, d)]
            && ParseRedirs(s, redirs, i) == ParseRedirs(s, one, file.next)
            && Lex(s, file.next) == Lex(s, i)[2..]
  {
    hide GetToken, Skip, Lex, Peek, IsWord, ReadFiles;
    First(s, i, "<>");
    First(s, GetToken(s, i).next, "");
  }

  lemma {:induction false} WordFront(x: Lexeme, cs: string)
    requires forall c :: c in cs ==> IsSymbol(c)
    ensures IsWordChar(Front(x)) ==> Front(x) !in cs
  {
  }

  /** parseredirs takes the redirections at the front. */
  lemma {:induction false} LeadingRead(s: string, redirs: seq<(Word, Direction)>, i: nat, x: seq<Lexeme>,
                                       ws: seq<string>, files: seq<(string, Direction)>, rest: seq<Lexeme>)
    returns (m: nat, n: nat)
    requires CString(s) && i <= |s| && AllFiles(s, redirs) && Follows(rest, "|)&;")
    requires Lex(s, i) == x + rest && WordsAndFiles(x, ws, files)
    ensures m <= |x| && n <= |files| && WordsAndFiles(x[m..], ws, files[n..]) && (x[m..] == [] || x[m..][0].Text?)
    ensures var r := ParseRedirs(s, redirs, i);
            r.Ok? && Lex(s, r.pos) == x[m..] + rest && ReadFiles(s, r.value) == ReadFiles(s, redirs) + files[..n]
  {
    hide GetToken, Skip, Lex, IsWord, IsWordChar, ReadFiles, ParseRedirs, WordsAndFiles, Redirections, Peek;
    m, n := Leading(x, ws, files);
    assert Lex(s, i) == x[..m] + (x[m..] + rest);
    if x[m..] != [] {
      TextInLex(s, i, m);
      WordFront((x[m..] + rest)[0], "<>");
    } else {
      assert x[m..] + rest == rest;
    }
    RedirsRead(s, redirs, i, x[..m], files[..n], x[m..] + rest);
  }

  /** Every word in a line starts with a word character. */
  lemma {:induction false} TextInLex(s: string, i: nat, k: nat)
    requires CString(s) && i <= |s| && k < |Lex(s, i)| && Lex(s, i)[k].Text?
    ensures IsWordChar(Front(Lex(s, i)[k]))
    decreases k
  {
    hide GetToken, Skip, IsWord, IsWordChar, Front;
    First(s, i, "");
    if k > 0 {
      var t := GetToken(s, i);
      assert Lex(s, t.next)[k - 1] == Lex(s, i)[k];
      TextInLex(s, t.next, k - 1);
    }
  }

  /** One turn of the argument loop: a word and the redirections behind it. */
  lemma {:induction false} ArgsNext(s: string, argv: seq<Word>, redirs: seq<(Word, Direction)>, i: nat, x: seq<Lexeme>,
                                    ws: seq<string>, files: seq<(string, Direction)>, rest: seq<Lexeme>)
    returns (one: seq<Word>, more: seq<(Word, Direction)>, j: nat, y: seq<Lexeme>, left: seq<(string, Direction)>)
    requires CString(s) && i <= |s| && AllWords(s, argv) && AllFiles(s, redirs) && |argv| + |ws| < MAXARGS
    requires Lex(s, i) == x + rest && WordsAndFiles(x, ws, files) && Follows(rest, "|)&;")
    requires x != [] && x[0].Text?
    ensures j <= |s| && AllWords(s, one) && AllFiles(s, more) && |one| == |argv| + 1 && ws != []
    ensures Lex(s, j) == y + rest && WordsAndFiles(y, ws[1..], left) && (y == [] || y[0].Text?)
    ensures ParseArgs(s, argv, redirs, i) == ParseArgs(s, one, more, j)
    ensures ReadWords(s, argv) + ws == ReadWords(s, one) + ws[1..]
    ensures ReadFiles(s, redirs) + files == ReadFiles(s, more) + left
  {
    hide GetToken, Skip, Lex, Peek, IsWord, IsWordChar, AllWords, AllFiles, ReadFiles, ReadWords, ParseRedirs,
          ParseArgs;
    var t := GetToken(s, i);
    First(s, i, "");
    assert Lex(s, t.next) == x[1..] + rest;
    var m, n := LeadingRead(s, redirs, t.next, x[1..], ws[1..], files, rest);
    ArgsStep(s, argv, redirs, i);
    var r := ParseRedirs(s, redirs, t.next);
    one, more, j, y, left := argv + [Word(t.q, t.eq)], r.value, r.pos, x[1..][m..], files[n..];
    Regroup(ReadWords(s, argv), ws, 1);
    assert ws[..1] == [ws[0]];
    Regroup(ReadFiles(s, redirs), files, n);
  }

  lemma {:induction false} Regroup<T>(a: seq<T>, b: seq<T>, n: nat)
    requires n <= |b|
    ensures a + b == (a + b[..n]) + b[n..]
  {
  }

  /** The argument loop reads words and redirections, after a word or at its start. */
  lemma {:induction false} ArgsRead(s: string, argv: seq<Word>, redirs: seq<(Word, Direction)>, i: nat, x: seq<Lexeme>,
                                    ws: seq<string>, files: seq<(string, Direction)>, rest: seq<Lexeme>)
    requires CString(s) && i <= |s| && AllWords(s, argv) && AllFiles(s, redirs) && |argv| + |ws| < MAXARGS
    requires Lex(s, i) == x + rest && WordsAndFiles(x, ws, files) && Follows(rest, "|)&;")
    requires x == [] || x[0].Text?
    ensures var r := ParseArgs(s, argv, redirs, i);
            && r.Ok? && Lex(s, r.pos) == rest
            && Read(s, r.value) == Wrap(Exec(ReadWords(s, argv) + ws), ReadFiles(s, redirs) + files)
    decreases |ws|
  {
    hide GetToken, Skip, Lex, Peek, IsWord, ReadFiles, ReadWords, Read, ParseRedirs, ParseArgs, Wrap;
    if x == [] {
      assert Lex(s, i) == rest;
      ArgsStop(s, argv, redirs, i);
      assert ReadWords(s, argv) + ws == ReadWords(s, argv) && ReadFiles(s, redirs) + files == ReadFiles(s, redirs);
    } else {
      var one, more, j, y, left := ArgsNext(s, argv, redirs, i, x, ws, files, rest);
      ArgsRead(s, one, more, j, y, ws[1..], left, rest);
    }
  }

  lemma {:induction false} ArgsStop(s: string, argv: seq<Word>, redirs: seq<(Word, Direction)>, i: nat)
    requires CString(s) && i <= |s| && AllWords(s, argv) && AllFiles(s, redirs) && |argv| < MAXARGS
    requires Follows(Lex(s, i), "|)&;")
    ensures var r := ParseArgs(s, argv, redirs, i);
            && r.Ok? && Lex(s, r.pos) == Lex(s, i)
            && Read(s, r.value) == Wrap(Exec(ReadWords(s, argv)), ReadFiles(s, redirs))
  {
    hide GetToken, Skip, Lex, Peek, IsWord, ReadFiles, ReadWords, Read, ParseRedirs;
    First(s, i, "|)&;");
    ReadWrap(s, Exec(argv), redirs);
    ReadExec(s, argv);
  }

  lemma {:induction false} ArgsStep(s: string, argv: seq<Word>, redirs: seq<(Word, Direction)>, i: nat)
    requires CString(s) && i <= |s| && AllWords(s, argv) && AllFiles(s, redirs) && |argv| + 1 < MAXARGS
    requires Lex(s, i) != [] && Lex(s, i)[0].Text?
    requires ParseRedirs(s, redirs, GetToken(s, i).next).Ok?
    ensures var t := GetToken(s, i);
            var one, r := argv + [Word(t.q, t.eq)], ParseRedirs(s, redirs, t.next);
            && AllWords(s, one) && ReadWords(s, one) == ReadWords(s, argv) + [Lex(s, i)[0].text]
            && ParseArgs(s, argv, redirs, i) == ParseArgs(s, one, r.value, r.pos)
  {
    hide GetToken, Skip, Lex, Peek, IsWord, IsWordChar, ReadFiles, ReadWords, ParseRedirs;
    First(s, i, "|)&;");
    WordFront(Lex(s, i)[0], "|)&;");
  }

  lemma {:induction false} ReadExec(s: string, argv: seq<Word>)
    requires AllWords(s, argv) && |argv| < MAXARGS
    ensures Read(s, Exec(argv)) == Exec(ReadWords(s, argv))
  {
  }

  /** A command read from some position: the parser got tree t and stopped before rest. */
  ghost predicate ReadsAs(s: string, r: Parse<Cmd<Word>>, t: Cmd<string>, rest: seq<Lexeme>)
    requires CString(s)
  {
    r.Ok? && r.pos <= |s| && Sound(s, r.value) && Read(s, r.value) == t && Lex(s, r.pos) == rest
  }

  lemma {:induction false} WordsRead(s: string, i: nat, x: seq<Lexeme>, ws: seq<string>,
                                     files: seq<(string, Direction)>, rest: seq<Lexeme>)
    requires CString(s) && i <= |s| && |ws| < MAXARGS
    requires Lex(s, i) == x + rest && WordsAndFiles(x, ws, files) && Follows(rest, "|)&;")
    ensures ReadsAs(s, ParseExec(s, i), Wrap(Exec(ws), files), rest)
  {
    hide GetToken, Skip, Lex, Peek, ParseRedirs, ParseArgs, Read, ReadFiles, ReadWords, WordsAndFiles, Wrap,
          IsWord, Sound;
    NotOpen(s, i, x, ws, files, rest);
    First(s, i, "(");
    var m, n := LeadingRead(s, [], Skip(s, i), x, ws, files, rest);
    var r := ParseRedirs(s, [], Skip(s, i));
    assert ReadFiles(s, []) == [] && ReadWords(s, []) == [];
    assert ReadWords(s, []) + ws == ws;
    assert ReadFiles(s, r.value) + files[n..] == files;
    ArgsRead(s, [], r.value, r.pos, x[m..], ws, files[n..], rest);
  }

  lemma {:induction false} NotOpen(s: string, i: nat, x: seq<Lexeme>, ws: seq<string>,
                                   files: seq<(string, Direction)>, rest: seq<Lexeme>)
    requires CString(s) && i <= |s| && Follows(rest, "|)&;")
    requires Lex(s, i) == x + rest && WordsAndFiles(x, ws, files)
    ensures !Peek(s, i, "(")
  {
    hide GetToken, Skip, Lex, Peek;
    First(s, i, "(");
    assert x == [] ==> Lex(s, i) == rest;
  }

  /** A parenthesised line with redirections behind it. */
  lemma {:induction false} BlockRead(s: string, i: nat, t: Cmd<string>, x: seq<Lexeme>,
                                     files: seq<(string, Direction)>, rest: seq<Lexeme>)
    requires CString(s) && i <= |s| && Follows(rest, "|)&;") && Redirections(x, files)
    requires Lex(s, i) != [] && Lex(s, i)[0] == Sym('(')
    requires ReadsAs(s, ParseLine(s, GetToken(s, i).next), t, [Sym(')')] + x + rest)
    ensures ReadsAs(s, ParseExec(s, i), Wrap(t, files), rest)
  {
    hide GetToken, Skip, Lex, Peek, ParseRedirs, ParseLine, Read, ReadFiles, Redirections, Wrap, IsWord, Sound;
    First(s, i, "(");
    var line := ParseLine(s, GetToken(s, i).next);
    First(s, line.pos, ")");
    var close := GetToken(s, line.pos);
    assert Lex(s, close.next) == x + rest;
    RedirsRead(s, [], close.next, x, files, rest);
    var r := ParseRedirs(s, [], close.next);
    assert ReadFiles(s, []) + files == files;
    ReadWrap(s, line.value, r.value);
  }

  lemma {:induction false} ExecReads(s: string, i: nat, x: seq<Lexeme>, t: Cmd<string>, rest: seq<Lexeme>)
    requires CString(s) && i <= |s|
    requires Lex(s, i) == x + rest && Derives(x, t, 0) && Follows(rest, "|)&;")
    ensures ReadsAs(s, ParseExec(s, i), t, rest)
    decreases |x|, 0
  {
    hide GetToken, Skip, Lex, Peek, ParseExec, ParseLine, Read, ReadsAs, Strip, Outer, Redirections, WordsAndFiles;
    if SimpleCommand(x, t) {
      WrapStrip(t, Depth(t));
      WordsRead(s, i, x, Strip(t, Depth(t)).argv, Outer(t, Depth(t)), rest);
    } else {
      var k: nat, n: nat :| Block(x, t, k, n) && Derives(x[1..k], Strip(t, n), 3);
      WrapStrip(t, n);
      var more := [Sym(')')] + x[k + 1..] + rest;
      First(s, i, "");
      assert Lex(s, i) == [Sym('(')] + (x[1..k] + more);
      LineReads(s, GetToken(s, i).next, x[1..k], Strip(t, n), more);
      BlockRead(s, i, Strip(t, n), x[k + 1..], Outer(t, n), rest);
    }
  }

  lemma {:induction false} PipeReads(s: string, i: nat, x: seq<Lexeme>, t: Cmd<string>, rest: seq<Lexeme>)
    requires CString(s) && i <= |s|
    requires Lex(s, i) == x + rest && Derives(x, t, 1) && Follows(rest, ")&;")
    ensures ReadsAs(s, ParsePipe(s, i), t, rest)
    decreases |x|, 1
  {
    hide GetToken, Skip, Lex, Peek, ParseExec, SimpleCommand, Block;
    if Derives(x, t, 0) {
      ExecReads(s, i, x, t, rest);
      First(s, ParseExec(s, i).pos, "|");
    } else {
      var k: nat :| CutAt(x, k, '|') && Derives(x[..k], t.left, 0) && Derives(x[k + 1..], t.right, 1);
      var more := [Sym('|')] + x[k + 1..] + rest;
      assert Lex(s, i) == x[..k] + more;
      ExecReads(s, i, x[..k], t.left, more);
      var left := ParseExec(s, i);
      First(s, left.pos, "|");
      assert Lex(s, GetToken(s, left.pos).next) == x[k + 1..] + rest;
      PipeReads(s, GetToken(s, left.pos).next, x[k + 1..], t.right, rest);
    }
  }

  /** The loop over '&' resumes behind x as if it had just built t. */
  lemma {:induction false} BackReads(s: string, i: nat, x: seq<Lexeme>, t: Cmd<string>, rest: seq<Lexeme>)
    returns (r: Parse<Cmd<Word>>)
    requires CString(s) && i <= |s|
    requires Lex(s, i) == x + rest && Derives(x, t, 2) && Follows(rest, ")&;")
    ensures ReadsAs(s, r, t, rest)
    ensures var p := ParsePipe(s, i); p.Ok? && ParseBacks(s, p.value, p.pos) == ParseBacks(s, r.value, r.pos)
    decreases |x|, 2
  {
    hide GetToken, Skip, Lex, Peek, ParsePipe, SimpleCommand, Block, CutAt;
    if Derives(x, t, 1) {
      PipeReads(s, i, x, t, rest);
      r := ParsePipe(s, i);
    } else {
      var init := x[..|x| - 1];
      assert Lex(s, i) == init + ([Sym('&')] + rest);
      var c := BackReads(s, i, init, t.cmd, [Sym('&')] + rest);
      First(s, c.pos, "&");
      r := Ok(Back(c.value), GetToken(s, c.pos).next);
    }
  }

  lemma {:induction false} BacksStop(s: string, cmd: Cmd<Word>, i: nat)
    requires CString(s) && i <= |s| && Sound(s, cmd) && Follows(Lex(s, i), ");")
    ensures ParseBacks(s, cmd, i) == (cmd, Skip(s, i))
    ensures GetToken(s, Skip(s, Skip(s, i))) == GetToken(s, i) &&
          Lex(s, Skip(s, i)) == Lex(s, Skip(s, Skip(s, i))) == Lex(s, i)
    ensures Peek(s, Skip(s, i), ";") <==> StartsWith(Lex(s, i), ";")
  {
    hide GetToken, Skip, Lex, Peek;
    First(s, i, "&");
    First(s, Skip(s, i), ";");
  }

  lemma {:induction false} LineReads(s: string, i: nat, x: seq<Lexeme>, t: Cmd<string>, rest: seq<Lexeme>)
    requires CString(s) && i <= |s|
    requires Lex(s, i) == x + rest && Derives(x, t, 3) && Follows(rest, ")")
    ensures ReadsAs(s, ParseLine(s, i), t, rest)
    decreases |x|, 3
  {
    hide GetToken, Skip, Lex, Peek, ParsePipe, ParseBacks, SimpleCommand, Block;
    if Derives(x, t, 2) {
      var c := BackReads(s, i, x, t, rest);
      BacksStop(s, c.value, c.pos);
    } else {
      var k: nat :| CutAt(x, k, ';') && Derives(x[..k], t.left, 2) && Derives(x[k + 1..], t.right, 3);
      var more := [Sym(';')] + x[k + 1..] + rest;
      assert Lex(s, i) == x[..k] + more;
      var c := BackReads(s, i, x[..k], t.left, more);
      BacksStop(s, c.value, c.pos);
      First(s, c.pos, ";");
      assert Lex(s, GetToken(s, c.pos).next) == x[k + 1..] + rest;
      LineReads(s, GetToken(s, c.pos).next, x[k + 1..], t.right, rest);
    }
  }

  // ---- What the parser builds, the tokens derive ----

  lemma {:induction false} ArrowAhead(s: string, redirs: seq<(Word, Direction)>, i: nat)
    requires CString(s) && i <= |s| && AllFiles(s, redirs)
    requires Peek(s, i, "<>") && ParseRedirs(s, redirs, i).Ok?
    ensures |Lex(s, i)| >= 2 && IsArrow(Lex(s, i)[0]) && Lex(s, i)[1].Text?
    ensures i < GetToken(s, GetToken(s, i).next).next
  {
    hide GetToken, Skip, Lex, Peek, IsWord, IsWordChar;
    First(s, i, "<>");
    First(s, GetToken(s, i).next, "");
    WordFront(Lex(s, i)[0], "<>");
  }

  lemma {:induction false} RedirsDerive(s: string, redirs: seq<(Word, Direction)>, i: nat)
    returns (x: seq<Lexeme>, files: seq<(string, Direction)>)
    requires CString(s) && i <= |s| && AllFiles(s, redirs) && ParseRedirs(s, redirs, i).Ok?
    ensures var r := ParseRedirs(s, redirs, i);
            && Lex(s, i) == x + Lex(s, r.pos) && Redirections(x, files)
            && ReadFiles(s, r.value) == ReadFiles(s, redirs) + files
    decreases |s| - i
  {
    hide GetToken, Skip, Lex, Peek, IsWord, ReadFiles, ParseRedirs;
    First(s, i, "<>");
    if Peek(s, i, "<>") {
      ArrowAhead(s, redirs, i);
      RedirsStep(s, redirs, i);
      var file, d := GetToken(s, GetToken(s, i).next), DirOf(Lex(s, i)[0]);
      var y, more := RedirsDerive(s, redirs + [(Word(file.q, file.eq), d)], file.next);
      x, files := Lex(s, i)[..2] + y, [(Lex(s, i)[1].text, d)] + more;
      assert x[2..] == y && files[1..] == more;
    } else {
      RedirsStop(s, redirs, i);
      x, files := [], [];
    }
  }

  /** Where the argument loop ends, and where it goes on with a word. */
  lemma {:induction false} ArgsEnd(s: string, argv: seq<Word>, redirs: seq<(Word, Direction)>, i: nat)
    requires CString(s) && i <= |s| && AllWords(s, argv) && AllFiles(s, redirs) && |argv| < MAXARGS
    requires ParseArgs(s, argv, redirs, i).Ok?
    ensures if Peek(s, i, "|)&;") || Lex(s, i) == [] then Follows(Lex(s, i), "|)&;")
            else
              && Lex(s, i)[0].Text? && |argv| + 1 < MAXARGS && i < GetToken(s, i).next
              && ParseRedirs(s, redirs, GetToken(s, i).next).Ok?
  {
    hide GetToken, Skip, Lex, Peek, IsWord, IsWordChar, ParseRedirs;
    First(s, i, "|)&;");
    if Lex(s, i) != [] { WordFront(Lex(s, i)[0], "|)&;"); }
  }

  lemma {:induction false} ArgsDerive(s: string, argv: seq<Word>, redirs: seq<(Word, Direction)>, i: nat)
    returns (x: seq<Lexeme>, ws: seq<string>, files: seq<(string, Direction)>)
    requires CString(s) && i <= |s| && AllWords(s, argv) && AllFiles(s, redirs) && |argv| < MAXARGS
    requires ParseArgs(s, argv, redirs, i).Ok?
    ensures var r := ParseArgs(s, argv, redirs, i);
            && Lex(s, i) == x + Lex(s, r.pos) && WordsAndFiles(x, ws, files) && |argv| + |ws| < MAXARGS
            && Read(s, r.value) == Wrap(Exec(ReadWords(s, argv) + ws), ReadFiles(s, redirs) + files)
    decreases |s| - i
  {
    hide GetToken, Skip, Lex, Peek, IsWord, ReadFiles, ReadWords, Read, ParseRedirs, ParseArgs, Wrap, Follows,
          Redirections;
    ArgsEnd(s, argv, redirs, i);
    if Peek(s, i, "|)&;") || Lex(s, i) == [] {
      ArgsStop(s, argv, redirs, i);
      x, ws, files := [], [], [];
      assert ReadWords(s, argv) + ws == ReadWords(s, argv) && ReadFiles(s, redirs) + files == ReadFiles(s, redirs);
    } else {
      First(s, i, "");
      ArgsStep(s, argv, redirs, i);
      var t := GetToken(s, i);
      var r := ParseRedirs(s, redirs, t.next);
      var y, f := RedirsDerive(s, redirs, t.next);
      var z, vs, g := ArgsDerive(s, argv + [Word(t.q, t.eq)], r.value, r.pos);
      FilesFirst(y, f, z, vs, g);
      x, ws, files := [Lex(s, i)[0]] + (y + z), [Lex(s, i)[0].text] + vs, f + g;
      assert x[1..] == y + z && ws[1..] == vs;
      assert ReadFiles(s, redirs) + files == ReadFiles(s, r.value) + g;
      assert ReadWords(s, argv) + ws == ReadWords(s, argv + [Word(t.q, t.eq)]) + vs;
    }
  }

  lemma {:induction false} WordsDerive(s: string, i: nat) returns (x: seq<Lexeme>)
    requires CString(s) && i <= |s| && ParseExec(s, i).Ok? && !Peek(s, i, "(")
    ensures var r := ParseExec(s, i); Lex(s, i) == x + Lex(s, r.pos) && Derives(x, Read(s, r.value), 0)
  {
    hide GetToken, Skip, Lex, Peek, IsWord, ReadFiles, ReadWords, Read, ParseRedirs, ParseArgs, Wrap, Derives;
    First(s, i, "");
    var r := ParseRedirs(s, [], Skip(s, i));
    var y, f := RedirsDerive(s, [], Skip(s, i));
    var z, ws, g := ArgsDerive(s, [], r.value, r.pos);
    FilesFirst(y, f, z, ws, g);
    x := y + z;
    assert ReadFiles(s, []) + f == f && ReadWords(s, []) + ws == ws;
    SimpleRule(x, ws, f + g);
  }

  /** What a block consumes, given what its inside consumes. */
  lemma {:induction false} BlockDerives(s: string, i: nat, y: seq<Lexeme>) returns (x: seq<Lexeme>)
    requires CString(s) && i <= |s| && ParseExec(s, i).Ok? && Peek(s, i, "(")
    requires var line := ParseLine(s, GetToken(s, i).next);
             line.Ok? ==> Lex(s, GetToken(s, i).next) == y + Lex(s, line.pos) && Derives(y, Read(s, line.value), 3)
    ensures var r := ParseExec(s, i); Lex(s, i) == x + Lex(s, r.pos) && Derives(x, Read(s, r.value), 0)
  {
    hide GetToken, Skip, Lex, Peek, IsWord, ReadFiles, Read, ParseRedirs, ParseLine, Wrap, Redirections, Derives;
    OpensWith(s, i, '(');
    First(s, i, "");
    var line := ParseLine(s, GetToken(s, i).next);
    OpensWith(s, line.pos, ')');
    First(s, line.pos, "");
    var close := GetToken(s, line.pos);
    var r := ParseRedirs(s, [], close.next);
    var z, files := RedirsDerive(s, [], close.next);
    assert ReadFiles(s, []) + files == files;
    ReadWrap(s, line.value, r.value);
    BlockRule(y, Read(s, line.value), z, files);
    x := [Sym('(')] + y + [Sym(')')] + z;
    assert Lex(s, i) == [Sym('(')] + (y + ([Sym(')')] + (z + Lex(s, r.pos))));
  }

  /** peek for one symbol other than an arrow finds just that token. */
  lemma {:induction false} OpensWith(s: string, i: nat, c: char)
    requires CString(s) && i <= |s| && IsSymbol(c) && c != '>' && Peek(s, i, [c])
    ensures Lex(s, i) != [] && Lex(s, i)[0] == Sym(c) && i < GetToken(s, i).next
  {
    hide GetToken, Skip, Lex, Peek, IsWord, IsWordChar;
    First(s, i, [c]);
    WordFront(Lex(s, i)[0], [c]);
  }

  lemma {:induction false} ExecDerives(s: string, i: nat) returns (x: seq<Lexeme>)
    requires CString(s) && i <= |s| && ParseExec(s, i).Ok?
    ensures var r := ParseExec(s, i); Lex(s, i) == x + Lex(s, r.pos) && Derives(x, Read(s, r.value), 0)
    decreases |s| - i, 0
  {
    hide GetToken, Skip, Lex, Peek, Read, ParseLine, Derives;
    if Peek(s, i, "(") {
      OpensWith(s, i, '(');
      First(s, i, "");
      var y := LineDerives(s, GetToken(s, i).next);
      x := BlockDerives(s, i, y);
    } else {
      x := WordsDerive(s, i);
    }
  }

  lemma {:induction false} PipeDerives(s: string, i: nat) returns (x: seq<Lexeme>)
    requires CString(s) && i <= |s| && ParsePipe(s, i).Ok?
    ensures var r := ParsePipe(s, i); Lex(s, i) == x + Lex(s, r.pos) && Derives(x, Read(s, r.value), 1)
    decreases |s| - i, 1
  {
    hide GetToken, Skip, Lex, Peek, ParseExec, Derives;
    var left := ParseExec(s, i);
    x := ExecDerives(s, i);
    First(s, left.pos, "|");
    if Peek(s, left.pos, "|") {
      OpensWith(s, left.pos, '|');
      var right := ParsePipe(s, GetToken(s, left.pos).next);
      var y := PipeDerives(s, GetToken(s, left.pos).next);
      PipeRule(x, Read(s, left.value), y, Read(s, right.value));
      x := x + [Sym('|')] + y;
    } else {
      LooserRule(x, Read(s, left.value), 0, 1);
    }
  }

  /** The loop over '&', behind tokens y that derive what it has built. */
  lemma {:induction false} BacksDerive(s: string, cmd: Cmd<Word>, i: nat, y: seq<Lexeme>) returns (x: seq<Lexeme>)
    requires CString(s) && i <= |s| && Sound(s, cmd) && Derives(y, Read(s, cmd), 2)
    ensures var r := ParseBacks(s, cmd, i); Lex(s, i) == x + Lex(s, r.1) && Derives(y + x, Read(s, r.0), 2)
    decreases |s| - i
  {
    hide GetToken, Skip, Lex, Peek, Derives;
    First(s, i, "&");
    if Peek(s, i, "&") {
      OpensWith(s, i, '&');
      BackRule(y, Read(s, cmd));
      x := BacksDerive(s, Back(cmd), GetToken(s, i).next, y + [Sym('&')]);
      assert y + [Sym('&')] + x == y + ([Sym('&')] + x);
      x := [Sym('&')] + x;
    } else {
      x := [];
      assert y + x == y;
    }
  }

  lemma {:induction false} LineDerives(s: string, i: nat) returns (x: seq<Lexeme>)
    requires CString(s) && i <= |s|
    ensures var r := ParseLine(s, i);
            r.Ok? ==> Lex(s, i) == x + Lex(s, r.pos) && Derives(x, Read(s, r.value), 3)
    decreases |s| - i, 2
  {
    hide GetToken, Skip, Lex, Peek, ParsePipe, ParseBacks, Derives;
    x := [];
    var cmd := ParsePipe(s, i);
    if cmd.Ok? {
      var y := PipeDerives(s, i);
      LooserRule(y, Read(s, cmd.value), 1, 2);
      var (left, pos) := ParseBacks(s, cmd.value, cmd.pos);
      x := BacksDerive(s, cmd.value, cmd.pos, y);
      x := y + x;
      assert Lex(s, i) == x + Lex(s, pos);
      First(s, pos, ";");
      if Peek(s, pos, ";") {
        OpensWith(s, pos, ';');
        var right := ParseLine(s, GetToken(s, pos).next);
        var z := LineDerives(s, GetToken(s, pos).next);
        if right.Ok? {
          ListRule(x, Read(s, left), z, Read(s, right.value));
          x := x + [Sym(';')] + z;
        }
      } else {
        LooserRule(x, Read(s, left), 2, 3);
      }
    }
  }

  // ---- The parser and the grammar ----

  /** A line parses to a tree exactly when its tokens derive that tree. */
  lemma {:induction false} ParsesIffDerives(s: string, t: Cmd<string>)
    requires CString(s)
    ensures (ParseCmd(s).Ok? && Read(s, ParseCmd(s).value) == t) <==> Derives(Lex(s, 0), t, 3)
  {
    hide GetToken, Skip, Lex, ParseLine, Derives;
    var line := ParseLine(s, 0);
    if Derives(Lex(s, 0), t, 3) {
      assert Lex(s, 0) == Lex(s, 0) + [];
      LineReads(s, 0, Lex(s, 0), t, []);
      First(s, line.pos, "");
    }
    if ParseCmd(s).Ok? {
      var x := LineDerives(s, 0);
      EndsAt(s, line.pos);
      assert x + Lex(s, line.pos) == x;
    }
  }

  lemma {:induction false} EndsAt(s: string, i: nat)
    requires CString(s) && i <= |s| && Skip(s, i) == |s|
    ensures Lex(s, i) == []
  {
  }

  /** The parser accepts the lines of the grammar and panics on all others. */
  lemma {:induction false} AcceptsGrammar(s: string)
    requires CString(s)
    ensures ParseCmd(s).Ok? <==> exists t :: Derives(Lex(s, 0), t, 3)
  {
    hide Derives, Lex, ParseCmd;
    if ParseCmd(s).Ok? { ParsesIffDerives(s, Read(s, ParseCmd(s).value)); }
    if t :| Derives(Lex(s, 0), t, 3) { ParsesIffDerives(s, t); }
  }

  /** The grammar is unambiguous: the tokens of a line derive one tree at most. */
  lemma {:induction false} Unambiguous(s: string, t: Cmd<string>, u: Cmd<string>)
    requires CString(s) && Derives(Lex(s, 0), t, 3) && Derives(Lex(s, 0), u, 3)
    ensures t == u
  {
    ParsesIffDerives(s, t);
    ParsesIffDerives(s, u);
  }
}
