/** The shell's parser (user/src/sh/main.c): one cursor moved over the line by mutually recursive
    functions, and the terminating zeros written into the line afterwards. */
module Shell {
  import opened Grammar
  import opened Lexer

  // What a parse function returns, or the message it panics with.
  datatype Parsed = Bad(why: Panic) | Good(cmd: Cmd<Span>)

  // Every word of the command is a whole word of the line.
  ghost predicate Whole(s: string, c: Cmd<Span>) {
    match c
    case Exec(argv) => forall i | 0 <= i < |argv| :: WholeWord(s, argv[i])
    case Redir(b, f, _) => Whole(s, b) && WholeWord(s, f)
    case Pipe(l, r) => Whole(s, l) && Whole(s, r)
    case List(l, r) => Whole(s, l) && Whole(s, r)
    case Back(b) => Whole(s, b)
  }

  ghost predicate WholeFiles(s: string, fs: seq<(Span, bool)>) {
    forall i | 0 <= i < |fs| :: WholeWord(s, fs[i].0)
  }

  lemma {:induction false} WholeWrap(s: string, c: Cmd<Span>, fs: seq<(Span, bool)>)
    requires Whole(s, c) && WholeFiles(s, fs)
    ensures Whole(s, Wrap(c, fs))
    decreases |fs|
  {
    if fs != [] {
      WholeWrap(s, Redir(c, fs[0].0, fs[0].1), fs[1..]);
    }
  }

  // A parse function did what the grammar says, leaving the tokens left.
  ghost predicate Did(s: string, r: Parsed, want: Res<Span>, left: seq<Tok<Span>>) {
    match want
    case Err(why) => r == Bad(why)
    case Ok(c, rest) => r == Good(c) && left == rest && Whole(s, c)
  }

  class Parser {
    const s: string
    var ps: nat

    constructor (s: string)
      requires NoNul(s)
      ensures this.s == s && ps == 0
    {
      this.s, ps := s, 0;
    }

    ghost predicate Valid()
      reads this
    {
      ps <= |s| && NoNul(s)
    }

    // The tokens not read yet.
    ghost function Ts(): seq<Tok<Span>>
      requires Valid()
      reads this
    {
      Tokens(s, ps)
    }

    // while (s < es && strchr(whitespace, *s)) s++
    method SkipWhite(i: nat) returns (j: nat)
      requires i <= |s|
      ensures j == Skip(s, i)
    {
      j := i;
      while j < |s| && White(s[j])
        invariant i <= j <= |s| && Skip(s, j) == Skip(s, i)
      {
        j := j + 1;
      }
    }

    method SkipWord(i: nat) returns (j: nat)
      requires i <= |s|
      ensures j == WordEnd(s, i)
    {
      j := i;
      while j < |s| && !White(s[j]) && !Symbol(s[j])
        invariant i <= j <= |s| && WordEnd(s, j) == WordEnd(s, i)
      {
        j := j + 1;
      }
    }

    // The body of gettoken, from position i.
    method Scan(i: nat) returns (ret: char, q: nat, eq: nat, next: nat)
      requires i <= |s| && NoNul(s)
      ensures match GetTok(s, i)
              case NoTok => ret == '\0' && next == |s|
              case Token(tok, n) =>
                next == n && match tok
                             case Sym(c) => ret == c && c != '\0' && c != 'a'
                             case Word(sp) => ret == 'a' && sp == Span(q, eq)
    {
      hide Skip, WordEnd;
      var p := SkipWhite(i);
      q, ret := p, '\0';
      if p < |s| {
        ret := s[p];
        if s[p] == '>' {
          p := p + 1;
          if p < |s| && s[p] == '>' {
            ret := '+';
            p := p + 1;
          }
        } else if Symbol(s[p]) {
          p := p + 1;
        } else {
          ret := 'a';
          p := SkipWord(p);
        }
      }
      eq := p;
      next := SkipWhite(p);
    }

    /** The next token: its character ('a' for a word, '+' for >>, NUL at the end) and where it lies. */
    method GetToken() returns (ret: char, q: nat, eq: nat)
      requires Valid()
      modifies `ps
      ensures Valid()
      ensures if old(Ts()) == [] then ret == '\0' && Ts() == []
              else Ts() == old(Ts())[1..]
                   && match old(Ts())[0]
                      case Sym(c) => ret == c && c != '\0' && c != 'a'
                      case Word(sp) => ret == 'a' && sp == Span(q, eq) && WholeWord(s, sp)
    {
      TokensAre(s, ps);
      hide GetTok, Tokens;
      var next;
      ret, q, eq, next := Scan(ps);
      ps := next;
    }

    /** Skips white space; answers whether one of the characters toks comes next. */
    method Peek(toks: string) returns (b: bool)
      requires Valid()
      modifies `ps
      ensures Valid() && Ts() == old(Ts()) && b == (ps < |s| && s[ps] in toks) && ps == Skip(s, old(ps))
    {
      SkipSame(s, ps);
      ps := SkipWhite(ps);
      b := ps < |s| && s[ps] in toks;
    }

    // parseredirs: the redirections here, added to those in fs. Only a missing file panics.
    method ParseRedirs(fs: seq<(Span, bool)>) returns (ok: bool, gs: seq<(Span, bool)>)
      requires Valid() && WholeFiles(s, fs)
      modifies `ps
      ensures Valid()
      ensures match Plus(fs, Redirs(old(Ts())))
              case NoFile => !ok
              case Got(all, rest) => ok && gs == all && Ts() == rest && WholeFiles(s, gs)
    {
      hide Redirs, Tokens;
      ok, gs := true, fs;
      ghost var want := Plus(fs, Redirs(Ts()));
      var b := PeekRedir();
      while b && ok
        invariant Valid() && WholeFiles(s, gs)
        invariant if ok then b == At(Ts(), "<>+") && Plus(gs, Redirs(Ts())) == want else want == NoFile
        decreases ok, |Ts()|
      {
        ghost var ts := Ts();
        var tok, q, eq := GetToken();
        tok, ok, q, eq := RedirFile(tok);
        if ok {
          OneRedir(ts, gs, Span(q, eq), tok != '<');
          gs := gs + [(Span(q, eq), tok != '<')];
          b := PeekRedir();
        } else {
          NoRedir(ts, gs);
        }
      }
      if ok {
        LastRedir(Ts(), gs);
      }
    }

    // The file name behind a redirection.
    method RedirFile(op: char) returns (tok: char, ok: bool, q: nat, eq: nat)
      requires Valid()
      modifies `ps
      ensures Valid() && tok == op
      ensures ok <==> old(Ts()) != [] && old(Ts())[0].Word?
      ensures ok ==> old(Ts())[0] == Word(Span(q, eq)) && WholeWord(s, Span(q, eq)) && Ts() == old(Ts())[1..]
    {
      var word;
      word, q, eq := GetToken();
      tok, ok := op, word == 'a';
    }

    method PeekRedir() returns (b: bool)
      requires Valid()
      modifies `ps
      ensures Valid() && Ts() == old(Ts()) && b == At(Ts(), "<>+")
    {
      b := Peek("<>");
      PeekIsRedir(s, ps);
    }

    // The symbol that comes next, if it is one of cs (not > and not +).
    method PeekSym(cs: string) returns (b: bool)
      requires Valid() && forall k | 0 <= k < |cs| :: Symbol(cs[k]) && cs[k] != '>'
      modifies `ps
      ensures Valid() && Ts() == old(Ts()) && b == At(Ts(), cs)
    {
      b := Peek(cs);
      PeekIs(s, ps, cs);
    }

    method ParseLine() returns (r: Parsed)
      requires Valid()
      modifies `ps
      ensures Valid() && Did(s, r, Grammar.ParseLine(old(Ts())), Ts())
      decreases |Ts()|, 3
    {
      ghost var ts := Ts();
      r := ParsePipe();
      if r.Good? {
        ghost var c0, t0 := r.cmd, Ts();
        var cmd := r.cmd;
        var b := PeekSym("&");
        while b
          invariant Valid() && b == At(Ts(), "&") && Backs(cmd, Ts()) == Backs(c0, t0) && |Ts()| <= |t0| && Whole(s, cmd)
          decreases |Ts()|
        {
          var tok, q, eq := GetToken();
          cmd := Back(cmd);
          b := PeekSym("&");
        }
        r := Good(cmd);
        b := PeekSym(";");
        if b {
          var tok, q, eq := GetToken();
          var more := ParseLine();
          r := if more.Good? then Good(List(cmd, more.cmd)) else more;
        }
      }
    }

    method ParsePipe() returns (r: Parsed)
      requires Valid()
      modifies `ps
      ensures Valid() && Did(s, r, Grammar.ParsePipe(old(Ts())), Ts())
      decreases |Ts()|, 2
    {
      r := ParseExec();
      if r.Good? {
        var b := PeekSym("|");
        if b {
          var tok, q, eq := GetToken();
          var more := ParsePipe();
          r := if more.Good? then Good(Pipe(r.cmd, more.cmd)) else more;
        }
      }
    }

    method ParseBlock() returns (r: Parsed)
      requires Valid() && At(Ts(), "(")
      modifies `ps
      ensures Valid() && Did(s, r, Grammar.ParseBlock(old(Ts())), Ts())
      decreases |Ts()|, 0
    {
      hide Redirs, Wrap, Tokens, Args;
      var tok, q, eq := GetToken();
      r := ParseLine();
      if r.Good? {
        var b := PeekSym(")");
        if !b {
          r := Bad(MissingParen);
        } else {
          tok, q, eq := GetToken();
          PlusNone(Redirs(Ts()));
          var ok, fs := ParseRedirs([]);
          if ok {
            WholeWrap(s, r.cmd, fs);
          }
          r := if ok then Good(Wrap(r.cmd, fs)) else Bad(MissingFile);
        }
      }
    }

    // parseexec. The words and the redirections are collected side by side, and put together at the
    // end, where the C code adds words to a command that is already wrapped.
    method ParseExec() returns (r: Parsed)
      requires Valid()
      modifies `ps
      ensures Valid() && Did(s, r, Grammar.ParseExec(old(Ts())), Ts())
      decreases |Ts()|, 1
    {
      hide Redirs, Wrap, Tokens, Args, Grammar.ParseBlock;
      var b := PeekSym("(");
      if b {
        r := ParseBlock();
        return;
      }
      PlusNone(Redirs(Ts()));
      var ok, fs := ParseRedirs([]);
      if !ok {
        return Bad(MissingFile);
      }
      r := ParseArgs(fs);
    }

    // Its loop.
    method ParseArgs(fs0: seq<(Span, bool)>) returns (r: Parsed)
      requires Valid() && WholeFiles(s, fs0)
      modifies `ps
      ensures Valid() && Did(s, r, Args([], fs0, old(Ts())), Ts())
    {
      ghost var ts := Ts();
      var argv: seq<Span>, fs := [], fs0;
      var b := PeekSym("|)&;");
      while !b
        invariant Valid() && b == At(Ts(), "|)&;") && |argv| < MAXARGS && |Ts()| <= |ts|
        invariant Args(argv, fs, Ts()) == Args([], fs0, ts)
        invariant (forall i | 0 <= i < |argv| :: WholeWord(s, argv[i])) && WholeFiles(s, fs)
        decreases |Ts()|, !b
      {
        ghost var t0 := Ts();
        var tok, q, eq := GetToken();
        if tok == '\0' { break; }
        if tok != 'a' {
          return Bad(Syntax);
        }
        argv := argv + [Span(q, eq)];
        if |argv| >= MAXARGS {
          return Bad(TooManyArgs);
        }
        var ok;
        ok, fs := ParseRedirs(fs);
        if !ok {
          return Bad(MissingFile);
        }
        b := PeekSym("|)&;");
      }
      WholeWrap(s, Exec(argv), fs);
      r := Good(Wrap(Exec(argv), fs));
    }
  }

  // What gettoken leaves of the tokens.
  lemma TokensAre(s: string, i: nat)
    requires i <= |s| && NoNul(s)
    ensures match GetTok(s, i)
            case NoTok => Tokens(s, i) == [] && Tokens(s, |s|) == []
            case Token(tok, next) =>
              && Tokens(s, i) != [] && Tokens(s, i)[0] == tok && Tokens(s, i)[1..] == Tokens(s, next)
              && (tok.Word? ==> WholeWord(s, tok.w))
  {
    if GetTok(s, i).Token? && GetTok(s, i).tok.Word? {
      WordIsWhole(s, i);
    }
  }

  // The first token begins with the first character that is not white.
  lemma PeekIs(s: string, p: nat, cs: string)
    requires p <= |s| && (p < |s| ==> !White(s[p])) && forall k | 0 <= k < |cs| :: Symbol(cs[k]) && cs[k] != '>'
    ensures (p < |s| && s[p] in cs) == At(Tokens(s, p), cs)
  {
    assert Skip(s, p) == p;
  }

  lemma PeekIsRedir(s: string, p: nat)
    requires p <= |s| && (p < |s| ==> !White(s[p]))
    ensures (p < |s| && s[p] in "<>") == At(Tokens(s, p), "<>+")
  {
    assert Skip(s, p) == p;
  }

  // More redirections after those in fs.
  function Plus(fs: seq<(Span, bool)>, r: Files<Span>): Files<Span> {
    match r
    case NoFile => NoFile
    case Got(more, rest) => Got(fs + more, rest)
  }

  lemma PlusNone(r: Files<Span>)
    ensures Plus([], r) == r
  {
    match r
    case NoFile =>
    case Got(more, _) => assert [] + more == more;
  }

  lemma OneRedir(ts: seq<Tok<Span>>, fs: seq<(Span, bool)>, f: Span, out: bool)
    requires At(ts, "<>+") && |ts| > 1 && ts[1] == Word(f) && out == (ts[0].c != '<')
    ensures Plus(fs, Redirs(ts)) == Plus(fs + [(f, out)], Redirs(ts[1..][1..]))
  {
    assert ts[1..][1..] == ts[2..];
    match Redirs(ts[2..])
    case NoFile =>
    case Got(more, rest) => assert fs + ([(f, out)] + more) == fs + [(f, out)] + more;
  }

  lemma NoRedir(ts: seq<Tok<Span>>, fs: seq<(Span, bool)>)
    requires At(ts, "<>+") && (ts[1..] == [] || !ts[1..][0].Word?)
    ensures Plus(fs, Redirs(ts)) == NoFile
  {
  }

  lemma LastRedir(ts: seq<Tok<Span>>, fs: seq<(Span, bool)>)
    requires !At(ts, "<>+")
    ensures Plus(fs, Redirs(ts)) == Got(fs, ts)
  {
    assert fs + [] == fs;
  }

  // ---------- the terminating zeros ----------

  // Where nulterminate writes.
  ghost function Cuts(c: Cmd<Span>): set<nat> {
    match c
    case Exec(argv) => set i | 0 <= i < |argv| :: argv[i].eq
    case Redir(b, f, _) => Cuts(b) + {f.eq}
    case Pipe(l, r) => Cuts(l) + Cuts(r)
    case List(l, r) => Cuts(l) + Cuts(r)
    case Back(b) => Cuts(b)
  }

  ghost function Terminated(b: seq<char>, cuts: set<nat>): (r: seq<char>)
    ensures |r| == |b| && forall k | 0 <= k < |b| :: r[k] == if k in cuts then '\0' else b[k]
  {
    seq(|b|, k requires 0 <= k < |b| => if k in cuts then '\0' else b[k])
  }

  /** nulterminate: a zero behind every word of the command, and nothing else. */
  method Nulterminate(buf: array<char>, c: Cmd<Span>)
    requires forall k | k in Cuts(c) :: k < buf.Length
    modifies buf
    ensures buf[..] == Terminated(old(buf[..]), Cuts(c))
  {
    match c
    case Exec(argv) =>
      var i := 0;
      while i < |argv|
        invariant i <= |argv|
        invariant forall k | 0 <= k < buf.Length ::
                    buf[k] == if (exists j :: 0 <= j < i && argv[j].eq == k) then '\0' else old(buf[k])
      {
        assert argv[i].eq in Cuts(c);
        buf[argv[i].eq] := '\0';
        i := i + 1;
      }
    case Redir(b, f, _) =>
      assert Cuts(c) == Cuts(b) + {f.eq};
      Nulterminate(buf, b);
      buf[f.eq] := '\0';
    case Pipe(l, r) =>
      assert Cuts(c) == Cuts(l) + Cuts(r);
      Nulterminate(buf, l);
      Nulterminate(buf, r);
    case List(l, r) =>
      assert Cuts(c) == Cuts(l) + Cuts(r);
      Nulterminate(buf, l);
      Nulterminate(buf, r);
    case Back(b) =>
      assert Cuts(c) == Cuts(b);
      Nulterminate(buf, b);
  }

  // The C string at position q.
  function CString(b: seq<char>, q: nat): string
    decreases |b| - q
  {
    if q < |b| && b[q] != '\0' then [b[q]] + CString(b, q + 1) else ""
  }

  lemma {:induction false} CStringIs(b: seq<char>, q: nat, w: string)
    requires q + |w| < |b| && b[q + |w|] == '\0' && forall k | 0 <= k < |w| :: b[q + k] == w[k] != '\0'
    ensures CString(b, q) == w
    decreases |w|
  {
    if w != "" {
      assert b[q + 0] == w[0];
      forall k | 0 <= k < |w[1..]|
        ensures b[q + 1 + k] == w[1..][k] != '\0'
      {
        assert b[q + (k + 1)] == w[k + 1];
      }
      CStringIs(b, q + 1, w[1..]);
    }
  }

  // Words of a command.
  ghost predicate HasWord(c: Cmd<Span>, sp: Span) {
    match c
    case Exec(argv) => sp in argv
    case Redir(b, f, _) => HasWord(b, sp) || sp == f
    case Pipe(l, r) => HasWord(l, sp) || HasWord(r, sp)
    case List(l, r) => HasWord(l, sp) || HasWord(r, sp)
    case Back(b) => HasWord(b, sp)
  }

  lemma {:induction false} WordOf(s: string, c: Cmd<Span>, sp: Span)
    requires Whole(s, c) && HasWord(c, sp)
    ensures WholeWord(s, sp) && sp.eq in Cuts(c)
    decreases c
  {
    match c
    case Exec(argv) =>
    case Redir(b, f, _) => if HasWord(b, sp) { WordOf(s, b, sp); }
    case Pipe(l, r) => if HasWord(l, sp) { WordOf(s, l, sp); } else { WordOf(s, r, sp); }
    case List(l, r) => if HasWord(l, sp) { WordOf(s, l, sp); } else { WordOf(s, r, sp); }
    case Back(b) => WordOf(s, b, sp);
  }

  // No zero is written inside a word.
  lemma {:induction false} CutsOutside(s: string, c: Cmd<Span>, k: nat)
    requires Whole(s, c) && k in Cuts(c)
    ensures k <= |s| && (k < |s| ==> !Plain(s[k]))
    decreases c
  {
    match c
    case Exec(argv) =>
    case Redir(b, f, _) => if k in Cuts(b) { CutsOutside(s, b, k); }
    case Pipe(l, r) => if k in Cuts(l) { CutsOutside(s, l, k); } else { CutsOutside(s, r, k); }
    case List(l, r) => if k in Cuts(l) { CutsOutside(s, l, k); } else { CutsOutside(s, r, k); }
    case Back(b) => CutsOutside(s, b, k);
  }

  /** After nulterminate every argument and every file name, read as a C string, is the text of its
      token. */
  lemma WordsReadBack(s: string, b: seq<char>, c: Cmd<Span>, sp: Span)
    requires Whole(s, c) && HasWord(c, sp) && |b| > |s| && b[..|s|] == s && b[|s|] == '\0'
    ensures CString(Terminated(b, Cuts(c)), sp.q) == Text(s, sp)
  {
    WordOf(s, c, sp);
    var d := Terminated(b, Cuts(c));
    forall k | sp.q <= k < sp.eq
      ensures d[k] == s[k] != '\0'
    {
      assert b[k] == b[..|s|][k];
      if k in Cuts(c) {
        CutsOutside(s, c, k);
      }
    }
    var w := Text(s, sp);
    forall k | 0 <= k < |w|
      ensures d[sp.q + k] == w[k] != '\0'
    {
      assert d[sp.q + k] == s[sp.q + k];
    }
    CStringIs(d, sp.q, w);
  }

  // strlen
  method StrLen(buf: array<char>) returns (n: nat)
    requires '\0' in buf[..]
    ensures n < buf.Length && buf[n] == '\0' && NoNul(buf[..n])
  {
    n := 0;
    while buf[n] != '\0'
      invariant n < buf.Length && forall k | 0 <= k < n :: buf[k] != '\0'
      invariant exists k :: n <= k < buf.Length && buf[k] == '\0'
      decreases buf.Length - n
    {
      n := n + 1;
    }
  }

  /** parsecmd on a C string: the command the grammar reads from its tokens, or the panic; and in the
      buffer every word of it then ends in a zero, everything else being as it was. */
  method ParseCmd(buf: array<char>) returns (r: Parsed, ghost line: string)
    requires '\0' in buf[..]
    modifies buf
    ensures |line| < buf.Length && NoNul(line) && old(buf[..])[..|line|] == line && old(buf[..])[|line|] == '\0'
    ensures match ParseAll(Tokens(line, 0))
            case Err(why) => r == Bad(why) && buf[..] == old(buf[..])
            case Ok(c, _) =>
              && r == Good(c) && Whole(line, c) && buf[..] == Terminated(old(buf[..]), Cuts(c))
              && forall sp | HasWord(c, sp) :: CString(buf[..], sp.q) == Text(line, sp)
  {
    var n := StrLen(buf);
    ghost var was := buf[..];
    line := buf[..n];
    var p := new Parser(buf[..n]);
    r := p.ParseLine();
    if r.Good? {
      var b := p.Peek("");
      Leftover(line, p.ps);
      if p.ps != n {
        r := Bad(Leftovers);
      } else {
        ghost var c := r.cmd;
        forall k | k in Cuts(c)
          ensures k < buf.Length
        {
          CutsOutside(line, c, k);
        }
        Nulterminate(buf, r.cmd);
        forall sp | HasWord(c, sp)
          ensures CString(buf[..], sp.q) == Text(line, sp)
        {
          WordsReadBack(line, was, c, sp);
        }
      }
    }
  }

  lemma Leftover(s: string, p: nat)
    requires p <= |s| && (p < |s| ==> !White(s[p]))
    ensures Tokens(s, p) == [] <==> p == |s|
  {
  }
}
