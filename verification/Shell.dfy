/** The command parser of user/sh.c.  A command line is a C string; NUL is read at its end.
    Parsed words are pairs of positions into the line, as the q and eq pointers of the source. */
module Shell {
  import opened Common

  const MAXARGS := 10

  predicate IsSpace(c: char) { c == ' ' || c == '\t' || c == '\r' || c == '\n' || c == '\U{000b}' }

  predicate IsSymbol(c: char) { c == '<' || c == '|' || c == '>' || c == '&' || c == ';' || c == '(' || c == ')' }

  predicate IsWordChar(c: char) { c != NUL && !IsSpace(c) && !IsSymbol(c) }

  // ---- Tokens ----

  /** The first position from i on that does not hold white space. */
  function Skip(s: string, i: nat): (r: nat)
    requires i <= |s|
    ensures i <= r <= |s| && (r < |s| ==> !IsSpace(s[r])) && forall k :: i <= k < r ==> IsSpace(s[k])
    decreases |s| - i
  {
    if i < |s| && IsSpace(s[i]) then Skip(s, i + 1) else i
  }

  /** The first position from i on that does not continue a word. */
  function WordEnd(s: string, i: nat): (r: nat)
    requires i <= |s|
    ensures i <= r <= |s| && (r < |s| ==> IsSpace(s[r]) || IsSymbol(s[r]))
    ensures forall k :: i <= k < r ==> !IsSpace(s[k]) && !IsSymbol(s[k])
    decreases |s| - i
  {
    if i < |s| && !IsSpace(s[i]) && !IsSymbol(s[i]) then WordEnd(s, i + 1) else i
  }

  /** ret is the symbol itself, '+' for two '>', 'a' for a word, and NUL at the end. */
  datatype Token = Token(ret: char, q: nat, eq: nat, next: nat)

  function GetToken(s: string, i: nat): (t: Token)
    requires CString(s) && i <= |s|
    ensures i <= t.q <= t.eq <= t.next <= |s|
    ensures t.ret != NUL ==> t.q < t.eq
    ensures t.ret == 'a' <==> t.q < |s| && IsWordChar(s[t.q])
  {
    var q := Skip(s, i);
    var c := CharAt(s, q);
    var eq :=
      if c == NUL then q
      else if c == '>' && CharAt(s, q + 1) == '>' then q + 2
      else if IsSymbol(c) then q + 1
      else WordEnd(s, q);
    var ret :=
      if c == NUL then NUL
      else if c == '>' && CharAt(s, q + 1) == '>' then '+'
      else if IsSymbol(c) then c
      else 'a';
    Token(ret, q, eq, Skip(s, eq))
  }

  method SkipSpace(s: string, ps: nat) returns (i: nat)
    requires ps <= |s|
    ensures i == Skip(s, ps)
  {
    i := ps;
    while i < |s| && IsSpace(s[i])
      invariant ps <= i <= |s| && Skip(s, i) == Skip(s, ps)
    {
      i := i + 1;
    }
  }

  method SkipWord(s: string, ps: nat) returns (i: nat)
    requires ps <= |s|
    ensures i == WordEnd(s, ps)
  {
    i := ps;
    while i < |s| && !IsSpace(s[i]) && !IsSymbol(s[i])
      invariant ps <= i <= |s| && WordEnd(s, i) == WordEnd(s, ps)
    {
      i := i + 1;
    }
  }

  /** gettoken. */
  method NextToken(s: string, ps: nat) returns (t: Token)
    requires CString(s) && ps <= |s|
    ensures t == GetToken(s, ps)
  {
    var i := SkipSpace(s, ps);
    var q, ret := i, CharAt(s, i);
    if ret == NUL {
    } else if ret == '|' || ret == '(' || ret == ')' || ret == ';' || ret == '&' || ret == '<' {
      i := i + 1;
    } else if ret == '>' {
      i := i + 1;
      if CharAt(s, i) == '>' {
        ret, i := '+', i + 1;
      }
    } else {
      ret := 'a';
      i := SkipWord(s, i);
    }
    var eq := i;
    i := SkipSpace(s, i);
    t := Token(ret, q, eq, i);
  }

  /** The next token starts with one of the characters toks. */
  predicate Peek(s: string, i: nat, toks: string)
    requires i <= |s|
  {
    CharAt(s, Skip(s, i)) != NUL && CharAt(s, Skip(s, i)) in toks
  }

  /** peek; it also moves past white space. */
  method PeekAt(s: string, ps: nat, toks: string) returns (b: bool, i: nat)
    requires ps <= |s|
    ensures b == Peek(s, ps, toks) && i == Skip(s, ps)
  {
    i := SkipSpace(s, ps);
    b := CharAt(s, i) != NUL && CharAt(s, i) in toks;
  }

  // ---- Commands ----

  datatype Direction = In | Out          // O_RDONLY on 0, or O_WRONLY|O_CREATE on 1

  datatype Cmd<W> =
    | Exec(argv: seq<W>)
    | Redir(cmd: Cmd<W>, file: W, dir: Direction)
    | Pipe(left: Cmd<W>, right: Cmd<W>)
    | List(left: Cmd<W>, right: Cmd<W>)
    | Back(cmd: Cmd<W>)

  datatype Word = Word(q: nat, eq: nat)

  datatype Error = Syntax | MissingFile | MissingParenthesis | TooManyArgs
  datatype Parse<T> = Ok(value: T, pos: nat) | Panic(error: Error)

  /** Redirections collected so far, innermost first, put around a command. */
  function Wrap<W>(cmd: Cmd<W>, redirs: seq<(W, Direction)>): Cmd<W> {
    if redirs == [] then cmd
    else var last := redirs[|redirs| - 1]; Redir(Wrap(cmd, redirs[..|redirs| - 1]), last.0, last.1)
  }

  /** A maximal run of word characters. */
  predicate IsWord(s: string, w: Word) {
    && w.q < w.eq <= |s| && (forall k :: w.q <= k < w.eq ==> IsWordChar(s[k]))
    && (w.eq < |s| ==> !IsWordChar(s[w.eq]))
  }

  predicate AllWords(s: string, argv: seq<Word>) { forall k :: 0 <= k < |argv| ==> IsWord(s, argv[k]) }

  predicate AllFiles(s: string, redirs: seq<(Word, Direction)>) {
    forall k :: 0 <= k < |redirs| ==> IsWord(s, redirs[k].0)
  }

  /** Every word of the command is a whole token of the line, and no command has too many. */
  predicate Sound(s: string, cmd: Cmd<Word>) {
    match cmd
    case Exec(argv) => AllWords(s, argv) && |argv| < MAXARGS
    case Redir(c, file, _) => Sound(s, c) && IsWord(s, file)
    case Pipe(l, r) => Sound(s, l) && Sound(s, r)
    case List(l, r) => Sound(s, l) && Sound(s, r)
    case Back(c) => Sound(s, c)
  }

  lemma {:induction false} WrapSound(s: string, cmd: Cmd<Word>, redirs: seq<(Word, Direction)>)
    requires Sound(s, cmd) && AllFiles(s, redirs)
    ensures Sound(s, Wrap(cmd, redirs))
    decreases |redirs|
  {
    if redirs != [] { WrapSound(s, cmd, redirs[..|redirs| - 1]); }
  }

  // ---- The parser ----

  function ParseRedirs(s: string, redirs: seq<(Word, Direction)>, ps: nat): (r: Parse<seq<(Word, Direction)>>)
    requires CString(s) && ps <= |s| && AllFiles(s, redirs)
    ensures r.Ok? ==> ps <= r.pos <= |s| && AllFiles(s, r.value)
    decreases |s| - ps
  {
    if !Peek(s, ps, "<>") then Ok(redirs, Skip(s, ps))
    else
      var tok := GetToken(s, Skip(s, ps));
      var file := GetToken(s, tok.next);
      if file.ret != 'a' then Panic(MissingFile)
      else ParseRedirs(s, redirs + [(Word(file.q, file.eq), if tok.ret == '<' then In else Out)], file.next)
  }

  /** The argument loop of parseexec. */
  function ParseArgs(s: string, argv: seq<Word>, redirs: seq<(Word, Direction)>, ps: nat): (r: Parse<Cmd<Word>>)
    requires CString(s) && ps <= |s| && AllWords(s, argv) && AllFiles(s, redirs) && |argv| < MAXARGS
    ensures r.Ok? ==> ps <= r.pos <= |s| && Sound(s, r.value)
    decreases |s| - ps
  {
    WrapSound(s, Exec(argv), redirs);
    if Peek(s, ps, "|)&;") then Ok(Wrap(Exec(argv), redirs), Skip(s, ps))
    else
      var t := GetToken(s, Skip(s, ps));
      if t.ret == NUL then Ok(Wrap(Exec(argv), redirs), t.next)
      else if t.ret != 'a' then Panic(Syntax)
      else if |argv| + 1 >= MAXARGS then Panic(TooManyArgs)
      else
        var more := ParseRedirs(s, redirs, t.next);
        if more.Panic? then Panic(more.error)
        else ParseArgs(s, argv + [Word(t.q, t.eq)], more.value, more.pos)
  }

  function ParseBlock(s: string, ps: nat): (r: Parse<Cmd<Word>>)
    requires CString(s) && ps <= |s| && Peek(s, ps, "(")
    ensures r.Ok? ==> ps <= r.pos <= |s| && Sound(s, r.value)
    decreases |s| - ps, 0
  {
    var line := ParseLine(s, GetToken(s, Skip(s, ps)).next);
    if line.Panic? then line
    else if !Peek(s, line.pos, ")") then Panic(MissingParenthesis)
    else
      var redirs := ParseRedirs(s, [], GetToken(s, Skip(s, line.pos)).next);
      if redirs.Panic? then Panic(redirs.error)
      else WrapSound(s, line.value, redirs.value); Ok(Wrap(line.value, redirs.value), redirs.pos)
  }

  function ParseExec(s: string, ps: nat): (r: Parse<Cmd<Word>>)
    requires CString(s) && ps <= |s|
    ensures r.Ok? ==> ps <= r.pos <= |s| && Sound(s, r.value)
    decreases |s| - ps, 1
  {
    if Peek(s, ps, "(") then ParseBlock(s, ps)
    else
      var redirs := ParseRedirs(s, [], Skip(s, ps));
      if redirs.Panic? then Panic(redirs.error) else ParseArgs(s, [], redirs.value, redirs.pos)
  }

  function ParsePipe(s: string, ps: nat): (r: Parse<Cmd<Word>>)
    requires CString(s) && ps <= |s|
    ensures r.Ok? ==> ps <= r.pos <= |s| && Sound(s, r.value)
    decreases |s| - ps, 2
  {
    var left := ParseExec(s, ps);
    if left.Panic? then left
    else if !Peek(s, left.pos, "|") then Ok(left.value, Skip(s, left.pos))
    else
      var right := ParsePipe(s, GetToken(s, Skip(s, left.pos)).next);
      if right.Panic? then right else Ok(Pipe(left.value, right.value), right.pos)
  }

  /** The loop of parseline over '&'. */
  function ParseBacks(s: string, cmd: Cmd<Word>, ps: nat): (r: (Cmd<Word>, nat))
    requires CString(s) && ps <= |s| && Sound(s, cmd)
    ensures ps <= r.1 <= |s| && Sound(s, r.0)
    decreases |s| - ps
  {
    if Peek(s, ps, "&") then ParseBacks(s, Back(cmd), GetToken(s, Skip(s, ps)).next)
    else (cmd, Skip(s, ps))
  }

  function ParseLine(s: string, ps: nat): (r: Parse<Cmd<Word>>)
    requires CString(s) && ps <= |s|
    ensures r.Ok? ==> ps <= r.pos <= |s| && Sound(s, r.value)
    decreases |s| - ps, 3
  {
    var cmd := ParsePipe(s, ps);
    if cmd.Panic? then cmd
    else
      var (left, pos) := ParseBacks(s, cmd.value, cmd.pos);
      if !Peek(s, pos, ";") then Ok(left, Skip(s, pos))
      else
        var right := ParseLine(s, GetToken(s, Skip(s, pos)).next);
        if right.Panic? then right else Ok(List(left, right.value), right.pos)
  }

  function ParseCmd(s: string): (r: Parse<Cmd<Word>>)
    requires CString(s)
    ensures r.Ok? ==> Sound(s, r.value)
  {
    var line := ParseLine(s, 0);
    if line.Panic? then line
    else if Skip(s, line.pos) != |s| then Panic(Syntax)
    else Ok(line.value, |s|)
  }

  // ---- The parser as the source runs it ----

  /** parseredirs. */
  method Redirs(s: string, before: seq<(Word, Direction)>, ps: nat) returns (r: Parse<seq<(Word, Direction)>>)
    requires CString(s) && ps <= |s| && AllFiles(s, before)
    ensures r == ParseRedirs(s, before, ps)
  {
    hide GetToken, Skip, IsWordChar;
    var redirs := before;
    var more, i := PeekAt(s, ps, "<>");
    ghost var j: nat := ps;
    while more
      invariant j <= i <= |s| && AllFiles(s, redirs) && i == Skip(s, j) && more == Peek(s, j, "<>")
      invariant ParseRedirs(s, redirs, j) == ParseRedirs(s, before, ps)
      decreases |s| - i
    {
      var tok := NextToken(s, i);
      var file := NextToken(s, tok.next);
      if file.ret != 'a' {
        return Panic(MissingFile);
      }
      TokenIsWord(s, tok.next);
      redirs := redirs + [(Word(file.q, file.eq), if tok.ret == '<' then In else Out)];
      j := file.next;
      more, i := PeekAt(s, file.next, "<>");
    }
    r := Ok(redirs, i);
  }

  lemma {:induction false} TokenIsWord(s: string, i: nat)
    requires CString(s) && i <= |s| && GetToken(s, i).ret == 'a'
    ensures IsWord(s, Word(GetToken(s, i).q, GetToken(s, i).eq))
  {
  }

  /** parseexec without a block.  The source fills in argv after wrapping redirections around the
      node; here they are collected beside it. */
  method Simple(s: string, ps: nat) returns (r: Parse<Cmd<Word>>)
    requires CString(s) && ps <= |s| && !Peek(s, ps, "(")
    ensures r == ParseExec(s, ps)
  {
    hide GetToken, Skip, IsWordChar, ParseRedirs;
    var argv: seq<Word> := [];
    var stop, i := PeekAt(s, ps, "(");
    var ret := Redirs(s, [], i);
    if ret.Panic? {
      return Panic(ret.error);
    }
    ghost var j: nat := ret.pos;
    stop, i := PeekAt(s, ret.pos, "|)&;");
    while !stop
      invariant ret.Ok? && AllWords(s, argv) && AllFiles(s, ret.value) && |argv| < MAXARGS
      invariant j <= i <= |s| && i == Skip(s, j) && stop == Peek(s, j, "|)&;")
      invariant ParseArgs(s, argv, ret.value, j) == ParseExec(s, ps)
      decreases |s| - i, !stop
    {
      var t := NextToken(s, i);
      if t.ret == NUL {
        return Ok(Wrap(Exec(argv), ret.value), t.next);
      }
      if t.ret != 'a' {
        return Panic(Syntax);
      }
      TokenIsWord(s, i);
      if |argv| + 1 >= MAXARGS {
        return Panic(TooManyArgs);
      }
      var more := Redirs(s, ret.value, t.next);
      if more.Panic? {
        return Panic(more.error);
      }
      argv, ret, j := argv + [Word(t.q, t.eq)], more, more.pos;
      stop, i := PeekAt(s, ret.pos, "|)&;");
    }
    r := Ok(Wrap(Exec(argv), ret.value), i);
  }

  /** parseblock. */
  method Block(s: string, ps: nat) returns (r: Parse<Cmd<Word>>)
    requires CString(s) && ps <= |s| && Peek(s, ps, "(")
    ensures r == ParseExec(s, ps)
    decreases |s| - ps, 0
  {
    hide Skip, ParseRedirs, ParseLine;
    var open, i := PeekAt(s, ps, "(");
    var t := NextToken(s, i);
    var cmd := Line(s, t.next);
    if cmd.Panic? {
      return cmd;
    }
    var close;
    close, i := PeekAt(s, cmd.pos, ")");
    if !close {
      return Panic(MissingParenthesis);
    }
    t := NextToken(s, i);
    var redirs := Redirs(s, [], t.next);
    if redirs.Panic? {
      return Panic(redirs.error);
    }
    r := Ok(Wrap(cmd.value, redirs.value), redirs.pos);
  }

  /** parsepipe. */
  method PipeLine(s: string, ps: nat) returns (r: Parse<Cmd<Word>>)
    requires CString(s) && ps <= |s|
    ensures r == ParsePipe(s, ps)
    decreases |s| - ps, 1
  {
    hide Skip, ParseExec;
    var open, i := PeekAt(s, ps, "(");
    if open {
      r := Block(s, ps);
    } else {
      r := Simple(s, ps);
    }
    if r.Panic? {
      return;
    }
    var bar;
    bar, i := PeekAt(s, r.pos, "|");
    if !bar {
      return Ok(r.value, i);
    }
    var t := NextToken(s, i);
    var right := PipeLine(s, t.next);
    if right.Panic? {
      return right;
    }
    r := Ok(Pipe(r.value, right.value), right.pos);
  }

  /** The loop of parseline over '&'. */
  method Backs(s: string, first: Cmd<Word>, ps: nat) returns (cmd: Cmd<Word>, i: nat)
    requires CString(s) && ps <= |s| && Sound(s, first)
    ensures (cmd, i) == ParseBacks(s, first, ps)
  {
    hide Skip;
    cmd := first;
    ghost var j: nat := ps;
    var again;
    again, i := PeekAt(s, ps, "&");
    while again
      invariant Sound(s, cmd) && ps <= j <= i <= |s| && i == Skip(s, j) && again == Peek(s, j, "&")
      invariant ParseBacks(s, cmd, j) == ParseBacks(s, first, ps)
      decreases |s| - i
    {
      var t := NextToken(s, i);
      cmd, j := Back(cmd), t.next;
      again, i := PeekAt(s, t.next, "&");
    }
  }

  /** parseline. */
  method Line(s: string, ps: nat) returns (r: Parse<Cmd<Word>>)
    requires CString(s) && ps <= |s|
    ensures r == ParseLine(s, ps)
    decreases |s| - ps, 2
  {
    hide Skip, ParsePipe, ParseBacks;
    var first := PipeLine(s, ps);
    if first.Panic? {
      return first;
    }
    var cmd, i := Backs(s, first.value, first.pos);
    var semi;
    semi, i := PeekAt(s, i, ";");
    if !semi {
      return Ok(cmd, i);
    }
    var t := NextToken(s, i);
    var right := Line(s, t.next);
    if right.Panic? {
      return right;
    }
    r := Ok(List(cmd, right.value), right.pos);
  }

  // ---- nulterminate ----

  function ArgSet(argv: seq<Word>): set<Word> { set w | w in argv }

  /** The words of a command. */
  function Words(cmd: Cmd<Word>): set<Word> {
    match cmd
    case Exec(argv) => ArgSet(argv)
    case Redir(c, file, _) => Words(c) + {file}
    case Pipe(l, r) => Words(l) + Words(r)
    case List(l, r) => Words(l) + Words(r)
    case Back(c) => Words(c)
  }

  lemma {:induction false} WordsAreTokens(s: string, cmd: Cmd<Word>)
    requires Sound(s, cmd)
    ensures forall w :: w in Words(cmd) ==> IsWord(s, w)
  {
    match cmd
    case Exec(argv) =>
    case Redir(c, file, _) => WordsAreTokens(s, c);
    case Pipe(l, r) => WordsAreTokens(s, l); WordsAreTokens(s, r);
    case List(l, r) => WordsAreTokens(s, l); WordsAreTokens(s, r);
    case Back(c) => WordsAreTokens(s, c);
  }

  /** buf is old with NUL stored behind every word of ws, and nothing else changed. */
  ghost predicate CutAfter(buf: string, old': string, ws: set<Word>) {
    && |buf| == |old'|
    && (forall w :: w in ws ==> w.eq < |buf| && buf[w.eq] == NUL)
    && (forall k :: 0 <= k < |buf| ==> buf[k] == old'[k] || (buf[k] == NUL && exists w :: w in ws && w.eq == k))
  }

  lemma {:induction false} CutBoth(a: string, b: string, c: string, v: set<Word>, w: set<Word>)
    requires CutAfter(b, a, v) && CutAfter(c, b, w)
    ensures CutAfter(c, a, v + w)
  {
    forall k | 0 <= k < |c| && c[k] != a[k] ensures c[k] == NUL && exists x :: x in v + w && x.eq == k {
      if c[k] != b[k] {
        var x :| x in w && x.eq == k;
        assert x in v + w;
      } else {
        var x :| x in v && x.eq == k;
        assert x in v + w;
      }
    }
  }

  method Nulterminate(buf: array<char>, cmd: Cmd<Word>)
    requires forall w :: w in Words(cmd) ==> w.eq < buf.Length
    modifies buf
    ensures CutAfter(buf[..], old(buf[..]), Words(cmd))
  {
    match cmd {
      case Exec(argv) =>
        var i := 0;
        while i < |argv|
          invariant i <= |argv| && CutAfter(buf[..], old(buf[..]), ArgSet(argv[..i]))
        {
          ghost var was := buf[..];
          assert argv[i] in Words(cmd);
          buf[argv[i].eq] := NUL;
          CutBoth(old(buf[..]), was, buf[..], ArgSet(argv[..i]), {argv[i]});
          assert ArgSet(argv[..i + 1]) == ArgSet(argv[..i]) + {argv[i]};
          i := i + 1;
        }
        assert argv[..i] == argv;
      case Redir(c, file, _) =>
        Nulterminate(buf, c);
        ghost var was := buf[..];
        buf[file.eq] := NUL;
        CutBoth(old(buf[..]), was, buf[..], Words(c), {file});
      case Pipe(l, r) =>
        Nulterminate(buf, l);
        ghost var was := buf[..];
        Nulterminate(buf, r);
        CutBoth(old(buf[..]), was, buf[..], Words(l), Words(r));
      case List(l, r) =>
        Nulterminate(buf, l);
        ghost var was := buf[..];
        Nulterminate(buf, r);
        CutBoth(old(buf[..]), was, buf[..], Words(l), Words(r));
      case Back(c) =>
        Nulterminate(buf, c);
    }
  }

  /** As a C string, buf from q on reads text. */
  predicate Reads(buf: string, q: nat, text: string) {
    q + |text| < |buf| && buf[q..q + |text|] == text && NUL !in text && buf[q + |text|] == NUL
  }

  /** Cutting behind every token leaves each token reading as itself. */
  lemma {:induction false} TokensRead(s: string, cmd: Cmd<Word>, line: string, buf: string, w: Word)
    requires CString(s) && Sound(s, cmd) && CutAfter(buf, line, Words(cmd)) && w in Words(cmd)
    requires |s| < |line| && line[..|s| + 1] == s + [NUL]
    ensures w.q <= w.eq <= |s| && Reads(buf, w.q, s[w.q..w.eq])
  {
    WordsAreTokens(s, cmd);
    forall k | w.q <= k < w.eq ensures buf[k] == s[k] {
      assert IsWordChar(s[k]) && line[k] == line[..|s| + 1][k] == s[k];
    }
    assert buf[w.q..w.eq] == s[w.q..w.eq];
  }

  /** parsecmd: the tree of the line, every word of which then reads as exactly its token. */
  method ParseCommand(buf: array<char>, s: string) returns (r: Parse<Cmd<Word>>)
    requires CString(s) && |s| < buf.Length && buf[..|s| + 1] == s + [NUL]
    modifies buf
    ensures r == ParseCmd(s)
    ensures r.Panic? ==> buf[..] == old(buf[..])
    ensures r.Ok? ==> forall w :: w in Words(r.value) ==>
              w.q <= w.eq <= |s| && Reads(buf[..], w.q, s[w.q..w.eq])
  {
    r := Line(s, 0);
    if r.Panic? {
      return;
    }
    var b, i := PeekAt(s, r.pos, "");
    if i != |s| {
      return Panic(Syntax);
    }
    r := Ok(r.value, i);
    WordsAreTokens(s, r.value);
    assert old(buf[..])[..|s| + 1] == s + [NUL];
    Nulterminate(buf, r.value);
    forall w | w in Words(r.value) ensures w.q <= w.eq <= |s| && Reads(buf[..], w.q, s[w.q..w.eq]) {
      TokensRead(s, r.value, old(buf[..]), buf[..], w);
    }
  }
}
