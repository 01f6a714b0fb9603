/** The shell's tokens (gettoken and peek in user/src/sh/main.c), and the writing of a command as a
    line of text. */
module Lexer {
  import opened Grammar

  // The bytes q .. eq of the line.
  datatype Span = Span(q: nat, eq: nat)

  predicate White(c: char) {
    c == ' ' || c == '\t' || c == '\r' || c == '\n' || c == 11 as char
  }

  predicate Symbol(c: char) {
    c == '<' || c == '|' || c == '>' || c == '&' || c == ';' || c == '(' || c == ')'
  }

  predicate Plain(c: char) {
    !White(c) && !Symbol(c) && c != '\0'
  }

  // A C string's bytes.
  predicate NoNul(s: string) {
    forall k | 0 <= k < |s| :: s[k] != '\0'
  }

  // The first position from i on that is not white.
  function Skip(s: string, i: nat): (j: nat)
    requires i <= |s|
    ensures i <= j <= |s| && (j < |s| ==> !White(s[j]))
    ensures forall k | i <= k < j :: White(s[k])
    decreases |s| - i
  {
    if i < |s| && White(s[i]) then Skip(s, i + 1) else i
  }

  // The end of the word at i.
  function WordEnd(s: string, i: nat): (j: nat)
    requires i <= |s|
    ensures i <= j <= |s| && (j < |s| ==> White(s[j]) || Symbol(s[j]))
    ensures forall k | i <= k < j :: !White(s[k]) && !Symbol(s[k])
    decreases |s| - i
  {
    if i < |s| && !White(s[i]) && !Symbol(s[i]) then WordEnd(s, i + 1) else i
  }

  // What gettoken finds from i on, and where it stops.
  datatype Found = NoTok | Token(tok: Tok<Span>, next: nat)

  function GetTok(s: string, i: nat): (r: Found)
    requires i <= |s|
    ensures r.Token? ==> i < r.next <= |s|
  {
    var j := Skip(s, i);
    if j == |s| then NoTok
    else if s[j] == '>' then
      if j + 1 < |s| && s[j + 1] == '>' then Token(Sym('+'), Skip(s, j + 2)) else Token(Sym('>'), Skip(s, j + 1))
    else if Symbol(s[j]) then Token(Sym(s[j]), Skip(s, j + 1))
    else Token(Word(Span(j, WordEnd(s, j))), Skip(s, WordEnd(s, j)))
  }

  function Tokens(s: string, i: nat): seq<Tok<Span>>
    requires i <= |s|
    decreases |s| - i
  {
    match GetTok(s, i)
    case NoTok => []
    case Token(t, next) => [t] + Tokens(s, next)
  }

  // White space before a token does not matter.
  lemma SkipSame(s: string, i: nat)
    requires i <= |s|
    ensures Skip(s, Skip(s, i)) == Skip(s, i) && Tokens(s, Skip(s, i)) == Tokens(s, i)
  {
    SkipAgain(s, i);
    hide Skip, WordEnd;
    assert GetTok(s, Skip(s, i)) == GetTok(s, i);
  }

  lemma SkipAgain(s: string, i: nat)
    requires i <= |s|
    ensures Skip(s, Skip(s, i)) == Skip(s, i)
  {
  }

  // A whole word of the line: the byte behind it belongs to no word.
  predicate WholeWord(s: string, sp: Span) {
    && sp.q < sp.eq <= |s| && (forall k | sp.q <= k < sp.eq :: Plain(s[k]))
    && (sp.eq < |s| ==> !Plain(s[sp.eq]))
  }

  lemma WordIsWhole(s: string, i: nat)
    requires NoNul(s) && i <= |s| && GetTok(s, i).Token? && GetTok(s, i).tok.Word?
    ensures WholeWord(s, GetTok(s, i).tok.w)
  {
  }

  // ---------- writing tokens ----------

  function Spell(t: Tok<string>): string {
    match t
    case Sym(c) => if c == '+' then ">>" else [c]
    case Word(w) => w
  }

  // White space, if any.
  predicate Gap(g: string) {
    forall k | 0 <= k < |g| :: g[k] in " \t\r\n" || g[k] == 11 as char
  }

  // The tokens with gaps before, between and behind them.
  function Laid(ts: seq<Tok<string>>, gaps: seq<string>): string
    requires |gaps| == |ts| + 1
  {
    if ts == [] then gaps[0] else gaps[0] + Spell(ts[0]) + Laid(ts[1..], gaps[1..])
  }

  // Without a gap these two would be one token, or others.
  predicate Clash(a: Tok<string>, b: Tok<string>) {
    (a.Word? && b.Word?) || (a == Sym('>') && (b == Sym('>') || b == Sym('+')))
  }

  predicate GoodGaps(ts: seq<Tok<string>>, gaps: seq<string>) {
    && |gaps| == |ts| + 1 && (forall i | 0 <= i < |gaps| :: Gap(gaps[i]))
    && forall i | 0 <= i < |ts| - 1 && Clash(ts[i], ts[i + 1]) :: gaps[i + 1] != ""
  }

  // No white space, no symbol, no NUL.
  predicate GoodWord(w: string) {
    w != "" && forall k | 0 <= k < |w| :: w[k] !in " \t\r\n<>|&;()" && w[k] != 11 as char && w[k] != '\0'
  }

  predicate GoodTok(t: Tok<string>) {
    match t
    case Sym(c) => c in "<>|&;()+"
    case Word(w) => GoodWord(w)
  }

  function TextTok(s: string, t: Tok<Span>): Tok<string> {
    match t
    case Sym(c) => Sym(c)
    case Word(sp) => Word(Text(s, sp))
  }

  function Text(s: string, sp: Span): string {
    if sp.q <= sp.eq <= |s| then s[sp.q..sp.eq] else ""
  }

  function SpanOf(t: Tok<Span>): Span {
    match t
    case Sym(_) => Span(0, 0)
    case Word(sp) => sp
  }

  function Texts(s: string, ts: seq<Tok<Span>>): seq<Tok<string>> {
    seq(|ts|, i requires 0 <= i < |ts| => TextTok(s, ts[i]))
  }

  lemma {:induction false} LaidNoNul(ts: seq<Tok<string>>, gaps: seq<string>)
    requires GoodGaps(ts, gaps) && forall i | 0 <= i < |ts| :: GoodTok(ts[i])
    ensures NoNul(Laid(ts, gaps))
    decreases |ts|
  {
    if ts != [] {
      LaidNoNul(ts[1..], gaps[1..]);
    }
  }

  // From i on the line is this.
  ghost predicate Shows(s: string, i: nat, line: string) {
    i <= |s| && s[i..] == line
  }

  // At i the line has w.
  ghost predicate Has(s: string, i: nat, w: string) {
    i + |w| <= |s| && s[i..i + |w|] == w
  }

  // The token cannot go on at n.
  ghost predicate Over(s: string, n: nat, t: Tok<string>) {
    n < |s| ==> match t
                case Word(_) => White(s[n]) || Symbol(s[n])
                case Sym(c) => c == '>' ==> s[n] != '>'
  }

  // Token t is written at j, behind white space from i on, and ends there.
  ghost predicate Begins(s: string, i: nat, j: nat, t: Tok<string>) {
    && i <= j && Has(s, j, Spell(t))
    && (forall k | i <= k < j :: White(s[k])) && Over(s, j + |Spell(t)|, t)
  }

  // What is laid out behind the first token begins with white space, or with a token that does not clash.
  lemma NextIsOver(s: string, n: nat, ts: seq<Tok<string>>, gaps: seq<string>)
    requires ts != [] && GoodGaps(ts, gaps) && Shows(s, n, Laid(ts[1..], gaps[1..]))
    requires forall k | 0 <= k < |ts| :: GoodTok(ts[k])
    ensures Over(s, n, ts[0])
  {
    if n < |s| {
      var rest := s[n..];
      assert s[n] == rest[0];
      assert Gap(gaps[1]);
      if gaps[1] != "" {
        assert rest[0] == gaps[1][0];
      } else if |ts| > 1 {
        assert !Clash(ts[0], ts[0 + 1]);
        assert GoodTok(ts[1]) && rest[0] == Spell(ts[1])[0];
      }
    }
  }

  lemma RestGood(ts: seq<Tok<string>>, gaps: seq<string>)
    requires ts != [] && GoodGaps(ts, gaps)
    ensures |gaps| == |ts| + 1 && GoodGaps(ts[1..], gaps[1..]) && Gap(gaps[0])
    ensures Laid(ts, gaps) == gaps[0] + Spell(ts[0]) + Laid(ts[1..], gaps[1..])
  {
    forall i | 0 <= i < |ts[1..]| - 1 && Clash(ts[1..][i], ts[1..][i + 1])
      ensures gaps[1..][i + 1] != ""
    {
      assert Clash(ts[i + 1], ts[i + 1 + 1]);
    }
  }

  lemma LineBegins(s: string, i: nat, ts: seq<Tok<string>>, gaps: seq<string>) returns (j: nat)
    requires ts != [] && GoodGaps(ts, gaps) && Shows(s, i, Laid(ts, gaps))
    requires forall k | 0 <= k < |ts| :: GoodTok(ts[k])
    ensures Begins(s, i, j, ts[0]) && Shows(s, j + |Spell(ts[0])|, Laid(ts[1..], gaps[1..]))
    ensures GoodGaps(ts[1..], gaps[1..])
  {
    RestGood(ts, gaps);
    hide *;
    var g, t, w, rest := gaps[0], ts[0], Spell(ts[0]), Laid(ts[1..], gaps[1..]);
    j := i + |g|;
    Pieces(s, i, g, w, rest);
    NextIsOver(s, j + |w|, ts, gaps);
    ItBegins(s, i, j, t, g);
  }

  lemma ItBegins(s: string, i: nat, j: nat, t: Tok<string>, g: string)
    requires Has(s, i, g) && j == i + |g| && Has(s, j, Spell(t)) && Gap(g) && Over(s, j + |Spell(t)|, t)
    ensures Begins(s, i, j, t)
  {
    hide Over, Spell;
    forall k | i <= k < j
      ensures White(s[k])
    {
      assert s[k] == s[i..j][k - i];
    }
  }

  lemma Pieces(s: string, i: nat, g: string, w: string, rest: string)
    requires Shows(s, i, g + w + rest)
    ensures Has(s, i, g) && Has(s, i + |g|, w) && Shows(s, i + |g| + |w|, rest)
  {
    var line := s[i..];
    assert line[..|g|] == g && line[|g|..|g| + |w|] == w && line[|g| + |w|..] == rest;
    assert s[i..i + |g|] == line[..|g|] && s[i + |g|..i + |g| + |w|] == line[|g|..|g| + |w|];
    assert s[i + |g| + |w|..] == line[|g| + |w|..];
  }

  lemma {:induction false} SkipTo(s: string, i: nat, j: nat)
    requires i <= j <= |s| && (forall k | i <= k < j :: White(s[k])) && (j < |s| ==> !White(s[j]))
    ensures Skip(s, i) == j
    decreases j - i
  {
    if i < j {
      SkipTo(s, i + 1, j);
    }
  }

  lemma OneWord(s: string, i: nat, j: nat, w: string)
    requires GoodWord(w) && Begins(s, i, j, Word(w))
    ensures GetTok(s, i) == Token(Word(Span(j, j + |w|)), Skip(s, j + |w|))
  {
    hide Skip, WordEnd;
    var n := j + |w|;
    forall k | j <= k < n
      ensures s[k] == w[k - j]
    {
      assert s[k] == s[j..n][k - j];
    }
    SkipTo(s, i, j);
    WordEndIs(s, j, n);
  }

  lemma OneSym(s: string, i: nat, j: nat, c: char)
    requires GoodTok(Sym(c)) && Begins(s, i, j, Sym(c))
    ensures GetTok(s, i) == Token(Sym(c), Skip(s, j + |Spell(Sym(c))|))
  {
    hide Skip, WordEnd;
    var w := Spell(Sym(c));
    assert s[j] == s[j..j + |w|][0];
    assert c == '+' ==> s[j + 1] == s[j..j + |w|][1];
    SkipTo(s, i, j);
  }

  lemma {:induction false} WordEndIs(s: string, i: nat, n: nat)
    requires i <= n <= |s| && (forall k | i <= k < n :: !White(s[k]) && !Symbol(s[k]))
    requires n < |s| ==> White(s[n]) || Symbol(s[n])
    ensures WordEnd(s, i) == n
    decreases n - i
  {
    if i < n {
      WordEndIs(s, i + 1, n);
    }
  }

  /** The tokens of a line are the tokens written on it, with whatever white space (blanks, tabs, returns,
      newlines, vertical tabs) before, between and behind them; between two of them there may be none,
      unless both are words, or > meets another >. */
  lemma {:induction false} TokensBack(s: string, i: nat, ts: seq<Tok<string>>, gaps: seq<string>)
    requires GoodGaps(ts, gaps) && Shows(s, i, Laid(ts, gaps)) && forall j | 0 <= j < |ts| :: GoodTok(ts[j])
    ensures Texts(s, Tokens(s, i)) == ts
    decreases |ts|
  {
    hide Skip, WordEnd, GetTok, Begins, Laid, Spell, Texts, Has, Gap, Clash;
    if ts == [] {
      NothingLeft(s, i, gaps);
    } else {
      var j := LineBegins(s, i, ts, gaps);
      var n := j + |Spell(ts[0])|;
      BeginsIn(s, i, j, ts[0]);
      TokensBack(s, n, ts[1..], gaps[1..]);
      FirstTok(s, i, j, ts[0]);
      TextsMore(s, GetTok(s, i).tok, Tokens(s, n));
    }
  }

  lemma TextsMore(s: string, t: Tok<Span>, ts: seq<Tok<Span>>)
    ensures Texts(s, [t] + ts) == [TextTok(s, t)] + Texts(s, ts)
  {
  }

  lemma NothingLeft(s: string, i: nat, gaps: seq<string>)
    requires GoodGaps([], gaps) && Shows(s, i, Laid([], gaps))
    ensures Tokens(s, i) == [] && Texts(s, Tokens(s, i)) == []
  {
    assert Gap(gaps[0]);
    forall k | i <= k < |s|
      ensures White(s[k])
    {
      assert s[k] == s[i..][k - i];
    }
    SkipTo(s, i, |s|);
  }

  lemma BeginsIn(s: string, i: nat, j: nat, t: Tok<string>)
    requires Begins(s, i, j, t)
    ensures i <= j && j + |Spell(t)| <= |s|
  {
  }

  lemma FirstTok(s: string, i: nat, j: nat, t: Tok<string>)
    requires GoodTok(t) && Begins(s, i, j, t)
    ensures var n := j + |Spell(t)|;
            && n <= |s| && GetTok(s, i).Token? && TextTok(s, GetTok(s, i).tok) == t
            && Tokens(s, i) == [GetTok(s, i).tok] + Tokens(s, n)
  {
    hide Skip, WordEnd, GetTok, Tokens, Begins;
    var n := j + |Spell(t)|;
    BeginsIn(s, i, j, t);
    SkipSame(s, n);
    FirstIs(s, i);
    match t
    case Word(w) =>
      OneWord(s, i, j, w);
      WordText(s, i, j, w);
    case Sym(c) => OneSym(s, i, j, c);
  }

  lemma FirstIs(s: string, i: nat)
    requires i <= |s|
    ensures GetTok(s, i).Token? ==> Tokens(s, i) == [GetTok(s, i).tok] + Tokens(s, GetTok(s, i).next)
  {
  }

  lemma WordText(s: string, i: nat, j: nat, w: string)
    requires Begins(s, i, j, Word(w))
    ensures Text(s, Span(j, j + |w|)) == w
  {
  }

  // ---------- commands and their text ----------

  function TextCmd(s: string, c: Cmd<Span>): Cmd<string> {
    match c
    case Exec(argv) => Exec(seq(|argv|, i requires 0 <= i < |argv| => Text(s, argv[i])))
    case Redir(b, f, out) => Redir(TextCmd(s, b), Text(s, f), out)
    case Pipe(l, r) => Pipe(TextCmd(s, l), TextCmd(s, r))
    case List(l, r) => List(TextCmd(s, l), TextCmd(s, r))
    case Back(b) => Back(TextCmd(s, b))
  }

  lemma TextsSplit(s: string, ts: seq<Tok<Span>>, a: seq<Tok<string>>, b: seq<Tok<string>>)
    requires Texts(s, ts) == a + b
    ensures |ts| == |a| + |b| && Texts(s, ts[..|a|]) == a && Texts(s, ts[|a|..]) == b
  {
    assert Texts(s, ts[..|a|]) == Texts(s, ts)[..|a|];
    assert Texts(s, ts[|a|..]) == Texts(s, ts)[|a|..];
  }

  // Two commands with a symbol between.
  lemma TextsThree(s: string, ts: seq<Tok<Span>>, a: seq<Tok<string>>, c: char, b: seq<Tok<string>>)
    requires Texts(s, ts) == a + [Sym(c)] + b
    ensures |ts| == |a| + 1 + |b| && ts == ts[..|a|] + [Sym(c)] + ts[|a| + 1..]
    ensures Texts(s, ts[..|a|]) == a && Texts(s, ts[|a| + 1..]) == b
  {
    TextsSplit(s, ts, a + [Sym(c)], b);
    TextsSplit(s, ts[..|a| + 1], a, [Sym(c)]);
    assert ts[..|a| + 1][..|a|] == ts[..|a|];
    assert Texts(s, ts)[|a|] == TextTok(s, ts[|a|]);
  }

  // Tokens whose text is that of a written command are a written command.
  lemma {:induction false} Lift(s: string, ts: seq<Tok<Span>>, t: Cmd<string>, place: nat) returns (c: Cmd<Span>)
    requires Texts(s, ts) == Written(t, place)
    ensures Written(c, place) == ts && TextCmd(s, c) == t
    decreases t, place
  {
    match t
    case Exec(argv) =>
      assert forall i | 0 <= i < |ts| :: TextTok(s, ts[i]) == Written(t, place)[i] && ts[i].Word?;
      c := Exec(seq(|ts|, i requires 0 <= i < |ts| => SpanOf(ts[i])));
      assert forall i | 0 <= i < |ts| :: ts[i] == Word(ts[i].w);
    case Redir(b, f, out) =>
      var op: Tok<string> := Sym(if out then '>' else '<');
      TextsSplit(s, ts, Written(b, 3), [op, Word(f)]);
      var k := |Written(b, 3)|;
      assert Texts(s, ts[k..])[0] == TextTok(s, ts[k]) && Texts(s, ts[k..])[1] == TextTok(s, ts[k + 1]);
      var d := Lift(s, ts[..k], b, 3);
      c := Redir(d, ts[k + 1].w, out);
      assert ts == ts[..k] + [ts[k], ts[k + 1]];
    case Pipe(l, r) =>
      if place <= 2 {
        TextsThree(s, ts, Written(l, 3), '|', Written(r, 2));
        var k := |Written(l, 3)|;
        var d := Lift(s, ts[..k], l, 3);
        var e := Lift(s, ts[k + 1..], r, 2);
        c := Pipe(d, e);
      } else {
        c := LiftParens(s, ts, t, place);
      }
    case Back(b) =>
      if place <= 1 {
        TextsThree(s, ts, Written(b, 1), '&', []);
        var k := |Written(b, 1)|;
        var d := Lift(s, ts[..k], b, 1);
        c := Back(d);
      } else {
        c := LiftParens(s, ts, t, place);
      }
    case List(l, r) =>
      if place == 0 {
        TextsThree(s, ts, Written(l, 1), ';', Written(r, 0));
        var k := |Written(l, 1)|;
        var d := Lift(s, ts[..k], l, 1);
        var e := Lift(s, ts[k + 1..], r, 0);
        c := List(d, e);
      } else {
        c := LiftParens(s, ts, t, place);
      }
  }

  lemma {:induction false} LiftParens(s: string, ts: seq<Tok<Span>>, t: Cmd<string>, place: nat) returns (c: Cmd<Span>)
    requires place > 0 && !t.Exec? && !t.Redir? && Written(t, place) == Parens(Written(t, 0))
    requires (t.Pipe? ==> place > 2) && (t.Back? ==> place > 1)
    requires Texts(s, ts) == Written(t, place)
    ensures Written(c, place) == ts && TextCmd(s, c) == t
    decreases t, place, 0
  {
    var w := Written(t, 0);
    assert Texts(s, ts) == [] + [Sym('(')] + (w + [Sym(')')]);
    TextsThree(s, ts, [], '(', w + [Sym(')')]);
    assert ts[1..] == ts[0 + 1..];
    TextsSplit(s, ts[1..], w, [Sym(')')]);
    assert Texts(s, ts[1..][|w|..])[0] == TextTok(s, ts[1 + |w|]);
    c := Lift(s, ts[1..][..|w|], t, 0);
    assert ts == Parens(ts[1..][..|w|]);
  }

  lemma {:induction false} TextWellFormed(s: string, c: Cmd<Span>)
    ensures WellFormed(TextCmd(s, c)) <==> WellFormed(c)
  {
    match c
    case Exec(_) =>
    case Redir(b, _, _) => TextWellFormed(s, b);
    case Pipe(l, r) => TextWellFormed(s, l); TextWellFormed(s, r);
    case List(l, r) => TextWellFormed(s, l); TextWellFormed(s, r);
    case Back(b) => TextWellFormed(s, b);
  }

  // Every word of a command can be told from the symbols.
  predicate GoodCmd(c: Cmd<string>) {
    match c
    case Exec(argv) => forall i | 0 <= i < |argv| :: GoodWord(argv[i])
    case Redir(b, f, _) => GoodCmd(b) && GoodWord(f)
    case Pipe(l, r) => GoodCmd(l) && GoodCmd(r)
    case List(l, r) => GoodCmd(l) && GoodCmd(r)
    case Back(b) => GoodCmd(b)
  }

  lemma {:induction false} GoodWritten(c: Cmd<string>, place: nat)
    requires GoodCmd(c)
    ensures forall i | 0 <= i < |Written(c, place)| :: GoodTok(Written(c, place)[i])
    decreases c, place
  {
    match c
    case Exec(_) =>
    case Redir(b, _, _) => GoodWritten(b, 3);
    case Pipe(l, r) =>
      if place <= 2 {
        GoodWritten(l, 3);
        GoodWritten(r, 2);
      } else {
        GoodWritten(c, 0);
      }
    case Back(b) =>
      if place <= 1 {
        GoodWritten(b, 1);
      } else {
        GoodWritten(c, 0);
      }
    case List(l, r) =>
      if place == 0 {
        GoodWritten(l, 1);
        GoodWritten(r, 0);
      } else {
        GoodWritten(c, 0);
      }
  }

  lemma GoodTokens(c: Cmd<string>, ts: seq<Tok<string>>)
    requires GoodCmd(c) && Plainer(ts) == Written(c, 0)
    ensures forall i | 0 <= i < |ts| :: GoodTok(ts[i])
  {
    GoodWritten(c, 0);
    forall i | 0 <= i < |ts|
      ensures GoodTok(ts[i])
    {
      assert GoodTok(Plainer(ts)[i]);
    }
  }

  /** Every command with at most nine words in each part, written as a line of text in any layout, with
      each > that one likes written as >>, is parsed into that command again. */
  lemma RoundTrip(t: Cmd<string>, ts: seq<Tok<string>>, gaps: seq<string>)
    requires WellFormed(t) && GoodCmd(t) && Plainer(ts) == Written(t, 0) && GoodGaps(ts, gaps)
    ensures NoNul(Laid(ts, gaps))
    ensures var r := ParseAll(Tokens(Laid(ts, gaps), 0));
            r.Ok? && TextCmd(Laid(ts, gaps), r.cmd) == t
  {
    var s := Laid(ts, gaps);
    GoodTokens(t, ts);
    LaidNoNul(ts, gaps);
    assert s[0..] == s && Shows(s, 0, s);
    TokensBack(s, 0, ts, gaps);
    var toks := Tokens(s, 0);
    assert Texts(s, Plainer(toks)) == Plainer(Texts(s, toks));
    var c := Lift(s, Plainer(toks), t, 0);
    TextWellFormed(s, c);
    LineBack(c, []);
    assert Written(c, 0) + [] == Plainer(toks);
    AppendIsOutput(toks);
  }

  // A blank before each token, and a newline at the end.
  function Entered(ts: seq<Tok<string>>): string {
    if ts == [] then "\n" else " " + Spell(ts[0]) + Entered(ts[1..])
  }

  lemma {:induction false} EnteredIs(ts: seq<Tok<string>>) returns (gaps: seq<string>)
    ensures |gaps| == |ts| + 1 && GoodGaps(ts, gaps) && Laid(ts, gaps) == Entered(ts)
    ensures forall k | 0 <= k < |gaps| :: gaps[k] != ""
    decreases |ts|
  {
    if ts == [] {
      gaps := ["\n"];
    } else {
      var more := EnteredIs(ts[1..]);
      gaps := [" "] + more;
      assert gaps[1..] == more;
    }
  }

  /** As a line is typed: with blanks between the tokens and a newline at the end. */
  lemma TypedLine(t: Cmd<string>)
    requires WellFormed(t) && GoodCmd(t)
    ensures var s := Entered(Written(t, 0));
            var r := ParseAll(Tokens(s, 0));
            NoNul(s) && r.Ok? && TextCmd(s, r.cmd) == t
  {
    var ts := Written(t, 0);
    var gaps := EnteredIs(ts);
    NoAppends(t, 0);
    RoundTrip(t, ts, gaps);
  }
}
