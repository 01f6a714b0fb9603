/** The shell's command language (user/src/sh/main.c): what the recursive descent computes on a list
    of tokens, and how a command is written so that it is read back. */
module Grammar {

  // struct cmd and its kinds; a word is what argv or file points to.
  datatype Cmd<W> =
    | Exec(argv: seq<W>)
    | Redir(cmd: Cmd<W>, file: W, out: bool)
    | Pipe(left: Cmd<W>, right: Cmd<W>)
    | List(left: Cmd<W>, right: Cmd<W>)
    | Back(cmd: Cmd<W>)

  // What gettoken answers: one of the characters < | > & ; ( ) or + for >>, or a word.
  datatype Tok<W> = Sym(c: char) | Word(w: W)

  datatype Panic = MissingFile | MissingParen | Syntax | TooManyArgs | Leftovers

  datatype Res<W> = Err(why: Panic) | Ok(cmd: Cmd<W>, rest: seq<Tok<W>>)

  // The files of a run of redirections.
  datatype Files<W> = NoFile | Got(files: seq<(W, bool)>, rest: seq<Tok<W>>)

  const MAXARGS := 10

  predicate At<W>(ts: seq<Tok<W>>, cs: string) {
    ts != [] && ts[0].Sym? && ts[0].c in cs
  }

  // At most nine words to a command.
  predicate WellFormed<W>(c: Cmd<W>) {
    match c
    case Exec(argv) => |argv| < MAXARGS
    case Redir(b, _, _) => WellFormed(b)
    case Pipe(l, r) => WellFormed(l) && WellFormed(r)
    case List(l, r) => WellFormed(l) && WellFormed(r)
    case Back(b) => WellFormed(b)
  }

  // ---------- the descent ----------

  function Redirs<W>(ts: seq<Tok<W>>): (r: Files<W>)
    ensures r.Got? ==> |r.rest| <= |ts| && !At(r.rest, "<>+")
    decreases |ts|
  {
    if !At(ts, "<>+") then Got([], ts)
    else if |ts| < 2 || !ts[1].Word? then NoFile
    else
      match Redirs(ts[2..])
      case NoFile => NoFile
      case Got(fs, rest) => Got([(ts[1].w, ts[0].c != '<')] + fs, rest)
  }

  // The redirections around a command, the last outermost.
  function Wrap<W>(c: Cmd<W>, fs: seq<(W, bool)>): (r: Cmd<W>)
    ensures WellFormed(r) <==> WellFormed(c)
    decreases |fs|
  {
    if fs == [] then c else Wrap(Redir(c, fs[0].0, fs[0].1), fs[1..])
  }

  // The loop of parseexec: the words and redirections so far, and the rest.
  function Args<W>(argv: seq<W>, fs: seq<(W, bool)>, ts: seq<Tok<W>>): (r: Res<W>)
    ensures r.Ok? ==> |r.rest| <= |ts| && (|argv| < MAXARGS ==> WellFormed(r.cmd))
    decreases |ts|
  {
    if ts == [] || At(ts, "|)&;") then Ok(Wrap(Exec(argv), fs), ts)
    else if !ts[0].Word? then Err(Syntax)
    else if |argv| + 1 >= MAXARGS then Err(TooManyArgs)
    else
      match Redirs(ts[1..])
      case NoFile => Err(MissingFile)
      case Got(more, rest) => Args(argv + [ts[0].w], fs + more, rest)
  }

  function ParseExec<W>(ts: seq<Tok<W>>): (r: Res<W>)
    ensures r.Ok? ==> |r.rest| <= |ts| && WellFormed(r.cmd)
    decreases |ts|, 1
  {
    if At(ts, "(") then ParseBlock(ts)
    else
      match Redirs(ts)
      case NoFile => Err(MissingFile)
      case Got(fs, rest) => Args([], fs, rest)
  }

  function ParseBlock<W>(ts: seq<Tok<W>>): (r: Res<W>)
    requires At(ts, "(")
    ensures r.Ok? ==> |r.rest| < |ts| && WellFormed(r.cmd)
    decreases |ts|, 0
  {
    match ParseLine(ts[1..])
    case Err(why) => Err(why)
    case Ok(c, rest) =>
      if !At(rest, ")") then Err(MissingParen)
      else
        match Redirs(rest[1..])
        case NoFile => Err(MissingFile)
        case Got(fs, more) => Ok(Wrap(c, fs), more)
  }

  function ParsePipe<W>(ts: seq<Tok<W>>): (r: Res<W>)
    ensures r.Ok? ==> |r.rest| <= |ts| && WellFormed(r.cmd)
    decreases |ts|, 2
  {
    match ParseExec(ts)
    case Err(why) => Err(why)
    case Ok(c, rest) =>
      if !At(rest, "|") then Ok(c, rest)
      else
        match ParsePipe(rest[1..])
        case Err(why) => Err(why)
        case Ok(d, more) => Ok(Pipe(c, d), more)
  }

  // The loop of parseline.
  function Backs<W>(c: Cmd<W>, ts: seq<Tok<W>>): (r: Res<W>)
    ensures r.Ok? && |r.rest| <= |ts| && !At(r.rest, "&") && (WellFormed(c) ==> WellFormed(r.cmd))
    decreases |ts|
  {
    if At(ts, "&") then Backs(Back(c), ts[1..]) else Ok(c, ts)
  }

  function ParseLine<W>(ts: seq<Tok<W>>): (r: Res<W>)
    ensures r.Ok? ==> |r.rest| <= |ts| && WellFormed(r.cmd)
    decreases |ts|, 3
  {
    match ParsePipe(ts)
    case Err(why) => Err(why)
    case Ok(c, rest) => Tail(Backs(c, rest).cmd, Backs(c, rest).rest, |ts|)
  }

  // After the &s: a list, or the end of the line.
  function Tail<W>(c: Cmd<W>, ts: seq<Tok<W>>, n: nat): (r: Res<W>)
    requires |ts| <= n && WellFormed(c)
    ensures r.Ok? ==> |r.rest| <= |ts| && WellFormed(r.cmd)
    decreases n, 2, |ts|
  {
    if !At(ts, ";") then Ok(c, ts)
    else
      match ParseLine(ts[1..])
      case Err(why) => Err(why)
      case Ok(d, more) => Ok(List(c, d), more)
  }

  function ParseAll<W>(ts: seq<Tok<W>>): Res<W> {
    match ParseLine(ts)
    case Err(why) => Err(why)
    case Ok(c, rest) => if rest == [] then Ok(c, []) else Err(Leftovers)
  }

  // ---------- how a command is written ----------

  // As a line (0), as what & follows (1), as part of a pipe (2), or as a simple command (3); with
  // parentheses where the place asks for them.
  function Written<W>(c: Cmd<W>, place: nat): seq<Tok<W>>
    decreases c, place
  {
    match c
    case Exec(argv) => seq(|argv|, i requires 0 <= i < |argv| => Word(argv[i]))
    case Redir(b, f, out) => Written(b, 3) + [Sym(if out then '>' else '<'), Word(f)]
    case Pipe(l, r) => if place <= 2 then Written(l, 3) + [Sym('|')] + Written(r, 2) else Parens(Written(c, 0))
    case Back(b) => if place <= 1 then Written(b, 1) + [Sym('&')] else Parens(Written(c, 0))
    case List(l, r) => if place == 0 then Written(l, 1) + [Sym(';')] + Written(r, 0) else Parens(Written(c, 0))
  }

  function Parens<W>(ts: seq<Tok<W>>): seq<Tok<W>> { [Sym('(')] + ts + [Sym(')')] }

  // >> written as >
  function Plainer<W>(ts: seq<Tok<W>>): seq<Tok<W>> {
    seq(|ts|, i requires 0 <= i < |ts| => if ts[i] == Sym('+') then Sym('>') else ts[i])
  }

  lemma {:induction false} NoAppends<W>(c: Cmd<W>, place: nat)
    ensures Plainer(Written(c, place)) == Written(c, place)
  {
    assert forall i | 0 <= i < |Written(c, place)| :: Written(c, place)[i] != Sym('+') by { NoPlus(c, place); }
  }

  lemma {:induction false} NoPlus<W>(c: Cmd<W>, place: nat)
    ensures Sym('+') !in Written(c, place)
    decreases c, place
  {
    match c
    case Exec(argv) =>
    case Redir(b, f, out) => NoPlus(b, 3);
    case Pipe(l, r) => if place <= 2 { NoPlus(l, 3); NoPlus(r, 2); } else { NoPlus(c, 0); }
    case Back(b) => if place <= 1 { NoPlus(b, 1); } else { NoPlus(c, 0); }
    case List(l, r) => if place == 0 { NoPlus(l, 1); NoPlus(r, 0); } else { NoPlus(c, 0); }
  }

  // ---------- >> is > ----------

  lemma PlainerRest<W>(ts: seq<Tok<W>>, k: nat)
    requires k <= |ts|
    ensures Plainer(ts)[k..] == Plainer(ts[k..])
  {
  }

  function PlainerRes<W>(r: Res<W>): Res<W> {
    match r
    case Err(why) => r
    case Ok(c, rest) => Ok(c, Plainer(rest))
  }

  function PlainerFiles<W>(r: Files<W>): Files<W> {
    match r
    case NoFile => r
    case Got(fs, rest) => Got(fs, Plainer(rest))
  }

  lemma {:induction false} RedirsPlainer<W>(ts: seq<Tok<W>>)
    ensures Redirs(Plainer(ts)) == PlainerFiles(Redirs(ts))
    decreases |ts|
  {
    if At(ts, "<>+") && |ts| >= 2 && ts[1].Word? {
      PlainerRest(ts, 2);
      RedirsPlainer(ts[2..]);
    }
  }

  lemma {:induction false} ArgsPlainer<W>(argv: seq<W>, fs: seq<(W, bool)>, ts: seq<Tok<W>>)
    ensures Args(argv, fs, Plainer(ts)) == PlainerRes(Args(argv, fs, ts))
    decreases |ts|
  {
    if ts != [] && ts[0].Word? && |argv| + 1 < MAXARGS {
      PlainerRest(ts, 1);
      RedirsPlainer(ts[1..]);
      match Redirs(ts[1..])
      case NoFile =>
      case Got(more, rest) => ArgsPlainer(argv + [ts[0].w], fs + more, rest);
    }
  }

  lemma {:induction false} BacksPlainer<W>(c: Cmd<W>, ts: seq<Tok<W>>)
    ensures Backs(c, Plainer(ts)) == PlainerRes(Backs(c, ts))
    decreases |ts|
  {
    if At(ts, "&") {
      PlainerRest(ts, 1);
      BacksPlainer(Back(c), ts[1..]);
    }
  }

  lemma {:induction false} ExecPlainer<W>(ts: seq<Tok<W>>)
    ensures ParseExec(Plainer(ts)) == PlainerRes(ParseExec(ts))
    decreases |ts|, 1
  {
    if At(ts, "(") {
      BlockPlainer(ts);
    } else {
      RedirsPlainer(ts);
      match Redirs(ts)
      case NoFile =>
      case Got(fs, rest) => ArgsPlainer([], fs, rest);
    }
  }

  lemma {:induction false} BlockPlainer<W>(ts: seq<Tok<W>>)
    requires At(ts, "(")
    ensures ParseBlock(Plainer(ts)) == PlainerRes(ParseBlock(ts))
    decreases |ts|, 0
  {
    PlainerRest(ts, 1);
    LinePlainer(ts[1..]);
    match ParseLine(ts[1..])
    case Err(_) =>
    case Ok(c, rest) =>
      if At(rest, ")") {
        PlainerRest(rest, 1);
        RedirsPlainer(rest[1..]);
      }
  }

  lemma {:induction false} PipePlainer<W>(ts: seq<Tok<W>>)
    ensures ParsePipe(Plainer(ts)) == PlainerRes(ParsePipe(ts))
    decreases |ts|, 2
  {
    ExecPlainer(ts);
    match ParseExec(ts)
    case Err(_) =>
    case Ok(c, rest) =>
      if At(rest, "|") {
        PlainerRest(rest, 1);
        PipePlainer(rest[1..]);
      }
  }

  lemma {:induction false} LinePlainer<W>(ts: seq<Tok<W>>)
    ensures ParseLine(Plainer(ts)) == PlainerRes(ParseLine(ts))
    decreases |ts|, 3
  {
    PipePlainer(ts);
    match ParsePipe(ts)
    case Err(_) =>
    case Ok(c, rest) =>
      BacksPlainer(c, rest);
      var more := Backs(c, rest).rest;
      if At(more, ";") {
        PlainerRest(more, 1);
        LinePlainer(more[1..]);
      }
  }

  /** A line means the same with > for >>. */
  lemma AppendIsOutput<W>(ts: seq<Tok<W>>)
    ensures ParseAll(Plainer(ts)) == ParseAll(ts)
  {
    LinePlainer(ts);
  }

  // ---------- it is read back ----------

  // What may follow.
  predicate Ends<W>(rest: seq<Tok<W>>, cs: string) {
    rest == [] || At(rest, cs)
  }

  function Files3<W>(fs: seq<(W, bool)>): seq<Tok<W>> {
    if fs == [] then [] else [Sym(if fs[0].1 then '>' else '<'), Word(fs[0].0)] + Files3(fs[1..])
  }

  // One redirection of the loop.
  lemma RedirStep<W>(f: W, out: bool, tail: seq<Tok<W>>, fs: seq<(W, bool)>, rest: seq<Tok<W>>)
    requires Redirs(tail) == Got(fs, rest)
    ensures Redirs([Sym(if out then '>' else '<'), Word(f)] + tail) == Got([(f, out)] + fs, rest)
  {
    var ts := [Sym(if out then '>' else '<'), Word(f)] + tail;
    assert At(ts, "<>+") && ts[1] == Word(f) && ts[2..] == tail;
  }

  lemma {:induction false} RedirsBack<W>(fs: seq<(W, bool)>, rest: seq<Tok<W>>)
    requires !At(rest, "<>+")
    ensures Redirs(Files3(fs) + rest) == Got(fs, rest)
    decreases |fs|
  {
    if fs == [] {
      assert Files3(fs) + rest == rest;
    } else {
      hide Redirs, At;
      RedirsBack(fs[1..], rest);
      RedirStep(fs[0].0, fs[0].1, Files3(fs[1..]) + rest, fs[1..], rest);
      assert Files3(fs) + rest == [Sym(if fs[0].1 then '>' else '<'), Word(fs[0].0)] + (Files3(fs[1..]) + rest);
      assert [(fs[0].0, fs[0].1)] + fs[1..] == fs;
    }
  }

  function Words<W>(argv: seq<W>): seq<Tok<W>> {
    seq(|argv|, i requires 0 <= i < |argv| => Word(argv[i]))
  }

  // One word of the loop, and its end.
  lemma ArgsStep<W>(argv: seq<W>, fs: seq<(W, bool)>, w: W, tail: seq<Tok<W>>, more: seq<(W, bool)>, rest: seq<Tok<W>>)
    requires |argv| + 1 < MAXARGS && Redirs(tail) == Got(more, rest)
    ensures Args(argv, fs, [Word(w)] + tail) == Args(argv + [w], fs + more, rest)
  {
    var ts := [Word(w)] + tail;
    assert ts[0] == Word(w) && ts[1..] == tail;
  }

  lemma ArgsEnd<W>(argv: seq<W>, fs: seq<(W, bool)>, rest: seq<Tok<W>>)
    requires Ends(rest, "|)&;")
    ensures Args(argv, fs, rest) == Ok(Wrap(Exec(argv), fs), rest)
  {
  }

  lemma NoRedirs<W>(ts: seq<Tok<W>>)
    requires ts != [] && ts[0].Word?
    ensures Redirs(ts) == Got([], ts)
  {
  }

  lemma EndsRedirs<W>(rest: seq<Tok<W>>)
    requires Ends(rest, "|)&;")
    ensures !At(rest, "<>+")
  {
  }

  lemma {:induction false} ArgsBack<W>(done: seq<W>, todo: seq<W>, fs: seq<(W, bool)>, rest: seq<Tok<W>>)
    requires |done| + |todo| < MAXARGS && todo != [] && Ends(rest, "|)&;")
    ensures Args(done, [], Words(todo) + Files3(fs) + rest) == Ok(Wrap(Exec(done + todo), fs), rest)
    decreases |todo|
  {
    hide Args, Redirs, Wrap, At;
    var none: seq<(W, bool)> := [];
    var tail := Words(todo[1..]) + Files3(fs) + rest;
    assert Words(todo) + Files3(fs) + rest == [Word(todo[0])] + tail;
    assert none + fs == fs && none + none == none && done + [todo[0]] + todo[1..] == done + todo;
    if |todo| == 1 {
      assert done + [todo[0]] == done + todo;
      assert tail == Files3(fs) + rest;
      EndsRedirs(rest);
      RedirsBack(fs, rest);
      ArgsStep(done, none, todo[0], tail, fs, rest);
      ArgsEnd(done + todo, fs, rest);
    } else {
      assert tail[0] == Word(todo[1]);
      NoRedirs(tail);
      ArgsStep(done, none, todo[0], tail, none, tail);
      ArgsBack(done + [todo[0]], todo[1..], fs, rest);
    }
  }

  // A simple command and the redirections around it.
  function Core<W>(c: Cmd<W>): Cmd<W> {
    if c.Redir? then Core(c.cmd) else c
  }

  function Around<W>(c: Cmd<W>): seq<(W, bool)> {
    if c.Redir? then Around(c.cmd) + [(c.file, c.out)] else []
  }

  lemma {:induction false} WrapMore<W>(c: Cmd<W>, fs: seq<(W, bool)>, f: (W, bool))
    ensures Wrap(c, fs + [f]) == Redir(Wrap(c, fs), f.0, f.1)
    ensures Files3(fs + [f]) == Files3(fs) + [Sym(if f.1 then '>' else '<'), Word(f.0)]
    decreases |fs|
  {
    if fs == [] {
      assert Wrap(Redir(c, f.0, f.1), []) == Redir(c, f.0, f.1);
      assert (fs + [f])[1..] == [];
    } else {
      assert (fs + [f])[1..] == fs[1..] + [f];
      WrapMore(Redir(c, fs[0].0, fs[0].1), fs[1..], f);
    }
  }

  lemma {:induction false} Unwrapped<W>(c: Cmd<W>)
    ensures Wrap(Core(c), Around(c)) == c && !Core(c).Redir?
    ensures Written(c, 3) == Written(Core(c), 3) + Files3(Around(c))
    ensures WellFormed(c) ==> WellFormed(Core(c))
    ensures Core(c) == c || Core(c) < c
    decreases c
  {
    if c.Redir? {
      Unwrapped(c.cmd);
      WrapMore(Core(c.cmd), Around(c.cmd), (c.file, c.out));
    } else {
      assert Files3(Around(c)) == [];
    }
  }

  // In which order the five lemmas below depend on each other: it turns with the kind of the command.
  function Rank<W>(c: Cmd<W>, place: nat): nat {
    match c
    case Exec(_) => place % 5
    case Redir(_, _, _) => place % 5
    case Pipe(_, _) => (place + 4) % 5
    case Back(_) => (place + 3) % 5
    case List(_, _) => (place + 2) % 5
  }

  lemma ExecIs<W>(ts: seq<Tok<W>>, fs: seq<(W, bool)>, rest: seq<Tok<W>>)
    requires !At(ts, "(") && Redirs(ts) == Got(fs, rest)
    ensures ParseExec(ts) == Args([], fs, rest)
  {
  }

  // A command with no parentheses around it.
  lemma PlainBack<W>(argv: seq<W>, fs: seq<(W, bool)>, rest: seq<Tok<W>>)
    requires |argv| < MAXARGS && Ends(rest, "|)&;")
    ensures ParseExec(Words(argv) + Files3(fs) + rest) == Ok(Wrap(Exec(argv), fs), rest)
  {
    hide Args, Redirs, Wrap;
    var ts := Words(argv) + Files3(fs) + rest;
    EndsRedirs(rest);
    if argv == [] {
      assert ts == Files3(fs) + rest;
      RedirsBack(fs, rest);
      ExecIs(ts, fs, rest);
      ArgsEnd(argv, fs, rest);
    } else {
      assert ts[0] == Word(argv[0]);
      NoRedirs(ts);
      ExecIs(ts, [], ts);
      ArgsBack([], argv, fs, rest);
      assert [] + argv == argv;
    }
  }

  lemma {:induction false} ExecBack<W>(c: Cmd<W>, rest: seq<Tok<W>>)
    requires WellFormed(c) && Ends(rest, "|)&;")
    ensures ParseExec(Written(c, 3) + rest) == Ok(c, rest)
    decreases c, Rank(c, 0)
  {
    hide Args, Redirs, Wrap, ParseExec;
    Unwrapped(c);
    var b, fs := Core(c), Around(c);
    var ts := Written(c, 3) + rest;
    if b.Exec? {
      assert ts == Words(b.argv) + Files3(fs) + rest;
      PlainBack(b.argv, fs, rest);
    } else {
      assert ts == Parens(Written(b, 0)) + Files3(fs) + rest;
      BlockBack(b, fs, rest);
      BlockExec(ts);
    }
  }

  lemma BlockExec<W>(ts: seq<Tok<W>>)
    requires At(ts, "(")
    ensures ParseExec(ts) == ParseBlock(ts)
  {
  }

  lemma {:induction false} BlockBack<W>(b: Cmd<W>, fs: seq<(W, bool)>, rest: seq<Tok<W>>)
    requires WellFormed(b) && Ends(rest, "|)&;")
    ensures var ts := Parens(Written(b, 0)) + Files3(fs) + rest;
            At(ts, "(") && ParseBlock(ts) == Ok(Wrap(b, fs), rest)
    decreases b, Rank(b, 4)
  {
    hide Args, Wrap, Redirs, ParseLine, Written;
    EndsRedirs(rest);
    var after := [Sym(')')] + Files3(fs) + rest;
    var ts := Parens(Written(b, 0)) + Files3(fs) + rest;
    assert ts[1..] == Written(b, 0) + after;
    LineBack(b, after);
    assert after[1..] == Files3(fs) + rest;
    RedirsBack(fs, rest);
  }

  lemma {:induction false} PipeBack<W>(c: Cmd<W>, rest: seq<Tok<W>>)
    requires WellFormed(c) && Ends(rest, ")&;")
    ensures ParsePipe(Written(c, 2) + rest) == Ok(c, rest)
    decreases c, Rank(c, 1)
  {
    if c.Pipe? {
      var after := [Sym('|')] + Written(c.right, 2) + rest;
      assert Written(c, 2) + rest == Written(c.left, 3) + after;
      ExecBack(c.left, after);
      assert after[1..] == Written(c.right, 2) + rest;
      PipeBack(c.right, rest);
    } else {
      assert Written(c, 2) == Written(c, 3);
      ExecBack(c, rest);
    }
  }

  // Parsing a pipe and the &s behind it.
  lemma {:induction false} BackBack<W>(c: Cmd<W>, rest: seq<Tok<W>>)
    requires WellFormed(c) && Ends(rest, ")&;")
    ensures var r := ParsePipe(Written(c, 1) + rest);
            r.Ok? && Backs(r.cmd, r.rest) == Backs(c, rest)
    decreases c, Rank(c, 2)
  {
    if c.Back? {
      var after := [Sym('&')] + rest;
      assert Written(c, 1) + rest == Written(c.cmd, 1) + after;
      BackBack(c.cmd, after);
      assert after[1..] == rest;
    } else {
      assert Written(c, 1) == Written(c, 2);
      PipeBack(c, rest);
    }
  }

  /** Every well-formed command, written as a line, is what parseline returns. */
  lemma {:induction false} LineBack<W>(c: Cmd<W>, rest: seq<Tok<W>>)
    requires WellFormed(c) && Ends(rest, ")")
    ensures ParseLine(Written(c, 0) + rest) == Ok(c, rest)
    decreases c, Rank(c, 3)
  {
    if c.List? {
      var after := [Sym(';')] + Written(c.right, 0) + rest;
      assert Written(c, 0) + rest == Written(c.left, 1) + after;
      BackBack(c.left, after);
      assert Backs(c.left, after) == Ok(c.left, after);
      assert after[1..] == Written(c.right, 0) + rest;
      LineBack(c.right, rest);
    } else {
      assert Written(c, 0) == Written(c, 1);
      BackBack(c, rest);
      assert Backs(c, rest) == Ok(c, rest);
    }
  }

  // ---------- words and redirections in any order ----------

  datatype Piece<W> = Arg(w: W) | To(file: W, out: bool)

  function PieceToks<W>(ps: seq<Piece<W>>): seq<Tok<W>> {
    if ps == [] then []
    else
      match ps[0]
      case Arg(w) => [Word(w)] + PieceToks(ps[1..])
      case To(f, out) => [Sym(if out then '>' else '<'), Word(f)] + PieceToks(ps[1..])
  }

  function ArgsOf<W>(ps: seq<Piece<W>>): seq<W> {
    if ps == [] then [] else (if ps[0].Arg? then [ps[0].w] else []) + ArgsOf(ps[1..])
  }

  function FilesOf<W>(ps: seq<Piece<W>>): seq<(W, bool)> {
    if ps == [] then [] else (if ps[0].To? then [(ps[0].file, ps[0].out)] else []) + FilesOf(ps[1..])
  }

  lemma {:induction false} PiecesBack<W>(argv: seq<W>, fs: seq<(W, bool)>, ps: seq<Piece<W>>, rest: seq<Tok<W>>)
    requires |argv| + |ArgsOf(ps)| < MAXARGS && Ends(rest, "|)&;")
    ensures var r := Redirs(PieceToks(ps) + rest);
            r.Got? && Args(argv, fs + r.files, r.rest) == Ok(Wrap(Exec(argv + ArgsOf(ps)), fs + FilesOf(ps)), rest)
    decreases |ps|
  {
    hide Args, Redirs, Wrap;
    var ts := PieceToks(ps) + rest;
    if ps == [] {
      assert ts == rest && argv + [] == argv && fs + [] == fs;
      EndsRedirs(rest);
      RedirsBack<W>([], rest);
      assert Files3<W>([]) + rest == rest;
      ArgsEnd(argv, fs, rest);
    } else {
      var tail := PieceToks(ps[1..]) + rest;
      match ps[0]
      case Arg(w) =>
        assert ts == [Word(w)] + tail;
        NoRedirs(ts);
        PiecesBack(argv + [w], fs, ps[1..], rest);
        ArgsStep(argv, fs, w, tail, Redirs(tail).files, Redirs(tail).rest);
        assert argv + [w] + ArgsOf(ps[1..]) == argv + ArgsOf(ps) && fs + [] == fs && FilesOf(ps) == FilesOf(ps[1..]);
      case To(f, out) =>
        assert ts == [Sym(if out then '>' else '<'), Word(f)] + tail;
        PiecesBack(argv, fs + [(f, out)], ps[1..], rest);
        RedirStep(f, out, tail, Redirs(tail).files, Redirs(tail).rest);
        assert fs + [(f, out)] + FilesOf(ps[1..]) == fs + FilesOf(ps) && ArgsOf(ps) == ArgsOf(ps[1..]);
        assert fs + [(f, out)] + Redirs(tail).files == fs + ([(f, out)] + Redirs(tail).files);
    }
  }

  /** A simple command may have its redirections before, between and behind its words: the words are
      its arguments in order, and the redirections go around it in order, the last outermost. */
  lemma PiecesRead<W>(ps: seq<Piece<W>>, rest: seq<Tok<W>>)
    requires |ArgsOf(ps)| < 10 && Ends(rest, "|)&;")
    ensures ParseExec(PieceToks(ps) + rest) == Ok(Wrap(Exec(ArgsOf(ps)), FilesOf(ps)), rest)
  {
    hide Args, Redirs, Wrap;
    var ts := PieceToks(ps) + rest;
    PiecesBack([], [], ps, rest);
    var none: seq<(W, bool)>, no: seq<W> := [], [];
    assert none + Redirs(ts).files == Redirs(ts).files && none + FilesOf(ps) == FilesOf(ps) && no + ArgsOf(ps) == ArgsOf(ps);
    assert ps == [] ==> ts == rest;
    ExecIs(ts, Redirs(ts).files, Redirs(ts).rest);
  }

  // ---------- what is refused ----------

  /** A closing parenthesis too many, whatever follows it, is left over. */
  lemma LeftoverRefused<W>(c: Cmd<W>, more: seq<Tok<W>>)
    requires WellFormed(c)
    ensures ParseAll(Written(c, 0) + [Sym(')')] + more) == Err(Leftovers)
  {
    var rest := [Sym(')')] + more;
    LineBack(c, rest);
    assert Written(c, 0) + [Sym(')')] + more == Written(c, 0) + rest;
  }

  // A panic inside ends everything.
  lemma ExecFails<W>(ts: seq<Tok<W>>, why: Panic)
    requires ParseExec(ts) == Err(why)
    ensures ParseAll(ts) == Err(why)
  {
    assert ParsePipe(ts) == Err(why);
    assert ParseLine(ts) == Err(why);
  }

  /** A parenthesis that is not closed. */
  lemma UnclosedRefused<W>(c: Cmd<W>)
    requires WellFormed(c)
    ensures ParseAll([Sym('(')] + Written(c, 0)) == Err(MissingParen)
  {
    var ts := [Sym('(')] + Written(c, 0);
    assert ts[1..] == Written(c, 0) + [];
    LineBack(c, []);
    assert ParseBlock(ts) == Err(MissingParen);
    BlockExec(ts);
    ExecFails(ts, MissingParen);
  }

  // The words of a simple command, of fewer than ten, and what comes behind them.
  lemma {:induction false} WordsThen<W>(done: seq<W>, todo: seq<W>, rest: seq<Tok<W>>)
    requires |done| + |todo| < MAXARGS && todo != [] && (rest != [] ==> rest[0].Sym?)
    ensures Args(done, [], Words(todo) + rest) ==
            match Redirs(rest)
            case NoFile => Err(MissingFile)
            case Got(fs, more) => Args(done + todo, fs, more)
    decreases |todo|
  {
    hide Redirs, At;
    var none: seq<(W, bool)> := [];
    var tail := Words(todo[1..]) + rest;
    assert Words(todo) + rest == [Word(todo[0])] + tail;
    assert none + none == none && done + [todo[0]] + todo[1..] == done + todo;
    if |todo| == 1 {
      assert tail == rest && done + todo == done + [todo[0]];
      match Redirs(rest)
      case NoFile => ArgsNoFile(done, none, todo[0], rest);
      case Got(fs, more) =>
        ArgsStep(done, none, todo[0], rest, fs, more);
        assert none + fs == fs;
    } else {
      assert tail[0] == Word(todo[1]);
      NoRedirs(tail);
      ArgsStep(done, none, todo[0], tail, none, tail);
      WordsThen(done + [todo[0]], todo[1..], rest);
    }
  }

  lemma ArgsNoFile<W>(argv: seq<W>, fs: seq<(W, bool)>, w: W, tail: seq<Tok<W>>)
    requires |argv| + 1 < MAXARGS && Redirs(tail) == NoFile
    ensures Args(argv, fs, [Word(w)] + tail) == Err(MissingFile)
  {
    var ts := [Word(w)] + tail;
    assert ts[0] == Word(w) && ts[1..] == tail;
  }

  // A command that begins with a word.
  lemma StartsWithWord<W>(argv: seq<W>, rest: seq<Tok<W>>)
    requires argv != []
    ensures ParseExec(Words(argv) + rest) == Args([], [], Words(argv) + rest)
  {
    var ts := Words(argv) + rest;
    assert ts[0] == Word(argv[0]);
    NoRedirs(ts);
    ExecIs(ts, [], ts);
  }

  /** A redirection with no file name behind it: at the end of the line, or before a symbol. */
  lemma NoFileRefused<W>(argv: seq<W>, op: char, rest: seq<Tok<W>>)
    requires 0 < |argv| < MAXARGS && op in "<>+" && (rest != [] ==> rest[0].Sym?)
    ensures ParseAll(Words(argv) + [Sym(op)] + rest) == Err(MissingFile)
  {
    var tail := [Sym(op)] + rest;
    var ts := Words(argv) + [Sym(op)] + rest;
    assert ts == Words(argv) + tail;
    assert Redirs(tail) == NoFile;
    WordsThen([], argv, tail);
    StartsWithWord(argv, tail);
    ExecFails(ts, MissingFile);
  }

  /** A parenthesis behind a word. */
  lemma ParenRefused<W>(argv: seq<W>, rest: seq<Tok<W>>)
    requires 0 < |argv| < MAXARGS
    ensures ParseAll(Words(argv) + [Sym('(')] + rest) == Err(Syntax)
  {
    var tail := [Sym('(')] + rest;
    var ts := Words(argv) + [Sym('(')] + rest;
    assert ts == Words(argv) + tail;
    assert Redirs(tail) == Got([], tail);
    WordsThen([], argv, tail);
    assert Args([] + argv, [], tail) == Err(Syntax);
    StartsWithWord(argv, tail);
    ExecFails(ts, Syntax);
  }

  lemma {:induction false} TenWords<W>(done: seq<W>, todo: seq<W>, rest: seq<Tok<W>>)
    requires |done| < 10 <= |done| + |todo|
    ensures Args(done, [], Words(todo) + rest) == Err(TooManyArgs)
    decreases |todo|
  {
    hide Redirs;
    var none: seq<(W, bool)> := [];
    var ts, tail := Words(todo) + rest, Words(todo[1..]) + rest;
    assert ts == [Word(todo[0])] + tail && ts[0] == Word(todo[0]);
    if |done| + 1 < 10 {
      assert tail[0] == Word(todo[1]) && none + none == none;
      NoRedirs(tail);
      ArgsStep(done, none, todo[0], tail, none, tail);
      TenWords(done + [todo[0]], todo[1..], rest);
    }
  }

  /** Ten words or more. */
  lemma TenRefused<W>(argv: seq<W>, rest: seq<Tok<W>>)
    requires |argv| >= 10
    ensures ParseAll(Words(argv) + rest) == Err(TooManyArgs)
  {
    TenWords([], argv, rest);
    StartsWithWord(argv, rest);
    ExecFails(Words(argv) + rest, TooManyArgs);
  }
}
