/** The console's line discipline (kern/console.c): a ring of INPUT_BUF bytes with a read, a write and
    an edit index. */
module Console {
  import opened Bytes

  const INPUT_BUF := 128
  const EOF := 4      // C('D')
  const BACKSPACE := 8  // C('H')
  const NEWLINE := 10
  const RETURN := 13
  const LISTING := 16 // C('P')
  const KILL := 21    // C('U')
  const DELETE := 127

  // ---------- what typing means ----------

  // Every byte committed so far, and the line being edited.
  datatype Typed = Typed(log: seq<byte>, edit: seq<byte>)

  // The line after C('U').
  function Killed(edit: seq<byte>): seq<byte> {
    if edit == [] || edit[|edit| - 1] == NEWLINE then edit else Killed(edit[..|edit| - 1])
  }

  // One key, when the first r committed bytes have been read.
  function Key(t: Typed, r: nat, c: byte): Typed {
    if c == LISTING then t
    else if c == KILL then t.(edit := Killed(t.edit))
    else if c == BACKSPACE || c == DELETE then
      if t.edit == [] then t else t.(edit := t.edit[..|t.edit| - 1])
    else if c == 0 || |t.log| + |t.edit| >= r + INPUT_BUF then t
    else
      var d := if c == RETURN then NEWLINE else c;
      var line := t.edit + [d];
      if d == NEWLINE || d == EOF || |t.log| + |line| == r + INPUT_BUF then Typed(t.log + line, []) else t.(edit := line)
  }

  function Keys(t: Typed, r: nat, cs: seq<byte>): Typed
    decreases |cs|
  {
    if cs == [] then t else Key(Keys(t, r, cs[..|cs| - 1]), r, cs[|cs| - 1])
  }

  // Any byte but NUL, C('D'), backspace, newline, return, C('P'), C('U') and delete.
  predicate Ordinary(c: byte) {
    c !in [0, 4, 8, 10, 13, 16, 21, 127]
  }

  // The edited line holds no end of line, so killing it leaves nothing of it.
  predicate Unfinished(edit: seq<byte>) {
    NEWLINE !in edit && EOF !in edit
  }

  lemma {:induction false} KillsAll(edit: seq<byte>)
    requires Unfinished(edit)
    ensures Killed(edit) == []
    decreases |edit|
  {
    if edit != [] {
      KillsAll(edit[..|edit| - 1]);
    }
  }

  /** No key changes or removes a committed byte; a line is committed as edited. */
  lemma KeyAppends(t: Typed, r: nat, c: byte)
    requires Unfinished(t.edit)
    ensures var u := Key(t, r, c);
            && t.log <= u.log && Unfinished(u.edit)
            && (u.log != t.log ==> u.edit == [] && exists d: byte :: u.log == t.log + t.edit + [d])
  {
    KillsAll(t.edit);
    if Key(t, r, c).log != t.log {
      var d: byte := if c == RETURN then NEWLINE else c;
      assert Key(t, r, c).log == t.log + t.edit + [d];
    }
  }

  lemma KeyOrdinary(t: Typed, r: nat, c: byte)
    requires Ordinary(c) && |t.log| + |t.edit| + 1 < r + 128
    ensures Key(t, r, c) == t.(edit := t.edit + [c])
  {
  }

  // Newline and return end a line, and C('D') marks the end of the file behind it.
  lemma KeyEnds(t: Typed, r: nat, c: byte)
    requires c in [4, 10, 13] && |t.log| + |t.edit| < r + 128
    ensures Key(t, r, c) == Typed(t.log + (t.edit + [if c == 4 then 4 else 10]), [])
  {
  }

  lemma {:induction false} TypedSoFar(t: Typed, r: nat, cs: seq<byte>)
    requires t.edit == [] && (forall i | 0 <= i < |cs| :: Ordinary(cs[i])) && |t.log| + |cs| + 1 <= r + 128
    ensures Keys(t, r, cs) == t.(edit := cs)
    decreases |cs|
  {
    hide Key;
    if cs != [] {
      var front := cs[..|cs| - 1];
      TypedSoFar(t, r, front);
      KeyOrdinary(t.(edit := front), r, cs[|cs| - 1]);
      assert front + [cs[|cs| - 1]] == cs;
    }
  }

  /** Typing ordinary bytes and then return, newline or C('D') commits exactly these bytes and the
      newline or the mark, while there is room. */
  lemma LineTyped(t: Typed, r: nat, cs: seq<byte>, c: byte)
    requires t.edit == [] && (forall i | 0 <= i < |cs| :: Ordinary(cs[i])) && |t.log| + |cs| + 1 <= r + 128
    requires c in [4, 10, 13]
    ensures Keys(t, r, cs + [c]) == Typed(t.log + (cs + [if c == 4 then 4 else 10]), [])
  {
    hide Key;
    TypedSoFar(t, r, cs);
    assert (cs + [c])[..|cs|] == cs;
    KeyEnds(t.(edit := cs), r, c);
  }

  /** C('U') takes back all that has been typed of the line. */
  lemma LineKilled(t: Typed, r: nat, cs: seq<byte>)
    requires t.edit == [] && (forall i | 0 <= i < |cs| :: Ordinary(cs[i])) && |t.log| + |cs| + 1 <= r + 128
    ensures Keys(t, r, cs + [21]) == t
  {
    TypedSoFar(t, r, cs);
    assert (cs + [21])[..|cs|] == cs;
    KillsAll(cs);
  }

  /** A backspace or a delete takes back the key before it, unless that one committed the line. */
  lemma Undone(t: Typed, r: nat, c: byte)
    requires Ordinary(c) && |t.log| + |t.edit| + 1 < r + 128
    ensures Key(Key(t, r, c), r, 8) == t && Key(Key(t, r, c), r, 127) == t
  {
    assert (t.edit + [c])[..|t.edit|] == t.edit;
  }

  /** The key that fills the ring of 128 bytes commits what there is; on a full ring, or with nothing to
      take back, keys do nothing, and NUL and C('P') never do anything. */
  lemma AtTheEdge(t: Typed, r: nat, c: byte)
    requires Unfinished(t.edit)
    ensures Ordinary(c) && |t.log| + |t.edit| + 1 == r + 128 ==> Key(t, r, c) == Typed(t.log + (t.edit + [c]), [])
    ensures |t.log| + |t.edit| >= r + 128 && c !in [8, 21, 127] ==> Key(t, r, c) == t
    ensures t.edit == [] ==> Key(t, r, 8) == t && Key(t, r, 127) == t && Key(t, r, 21) == t
    ensures Key(t, r, 0) == t && Key(t, r, 16) == t
  {
    KillsAll(t.edit);
  }

  // ---------- what reading means ----------

  // The committed bytes that are delivered: all but the end-of-file marks.
  function Kept(log: seq<byte>): seq<byte> {
    if log == [] then []
    else Kept(log[..|log| - 1]) + (if log[|log| - 1] == EOF then [] else [log[|log| - 1]])
  }

  function Marks(log: seq<byte>): nat {
    if log == [] then 0 else Marks(log[..|log| - 1]) + (if log[|log| - 1] == EOF then 1 else 0)
  }

  // How a turn of console_read ends: it has returned, it sleeps, or it was killed.
  datatype End = Returned | Asleep | Dead

  // A turn consumes k of the unread bytes: a line, or n bytes, or what there is; an end-of-file mark
  // only if nothing has been delivered before it.
  ghost predicate TurnOk(unread: seq<byte>, n: nat, target: nat, killed: bool, got: seq<byte>, k: nat, end: End) {
    && k <= |unread| && |got| <= n
    && (if k > |got| then k == 1 && got == [] && 0 < n == target && unread[0] == EOF && end == Returned
        else k == |got| && got == unread[..k] && EOF !in got)
    && (forall i | 0 <= i < |got| - 1 :: got[i] != NEWLINE) && (end != Returned ==> NEWLINE !in got)
    && match end
       case Returned => k > |got| || |got| == n || (got != [] && got[|got| - 1] == NEWLINE)
                        || (k < |unread| && unread[k] == EOF && (n < target || got != []))
       case Asleep => !killed && k == |unread| && |got| < n
       case Dead => killed && k == |unread| && |got| < n
  }

  /** Where a turn ends. Let j be the unread bytes before the first newline or end-of-file mark, or n if
      there is none among the first n, or all there are. A newline is delivered and returns; a mark
      returns too, and is taken only if nothing has been delivered to this read before; n bytes
      return; otherwise all that is there is delivered, and the reader sleeps, or is dead if killed. */
  lemma TurnEnds(unread: seq<byte>, n: nat, target: nat, killed: bool, got: seq<byte>, k: nat, end: End, j: nat)
    requires TurnOk(unread, n, target, killed, got, k, end) && n <= target
    requires j <= |unread| && j <= n && forall i | 0 <= i < j :: unread[i] != 10 && unread[i] != 4
    ensures j == n ==> end == Returned && got == unread[..n] && k == n
    ensures j < n && j < |unread| && unread[j] == 10 ==> end == Returned && got == unread[..j + 1] && k == j + 1
    ensures j < n && j < |unread| && unread[j] == 4 ==>
              end == Returned && got == unread[..j] && k == (if j == 0 && n == target then 1 else j)
    ensures j == |unread| < n ==> end == (if killed then Dead else Asleep) && got == unread && k == |unread|
  {
    if k == |got| {
      assert forall i | 0 <= i < |got| :: got[i] == unread[i];
      if |got| > j {
        assert got[j] == unread[j];
      } else if |got| > 0 {
        assert got[|got| - 1] == unread[|got| - 1];
      }
    }
  }

  lemma OtherSlot(k: nat, e: nat)
    requires k < e < k + INPUT_BUF
    ensures k % INPUT_BUF != e % INPUT_BUF
  {
  }

  class Input {
    const buf: array<byte>
    var r: nat
    var w: nat
    var e: nat
    // history: all bytes committed, the line being edited, all bytes delivered, and how many reads
    // have met the end of file
    ghost var log: seq<byte>
    ghost var edit: seq<byte>
    ghost var delivered: seq<byte>
    ghost var ends: nat

    constructor ()
      ensures Valid() && T() == Typed([], []) && r == 0 && fresh(buf)
    {
      buf := new byte[INPUT_BUF](_ => 0);
      r, w, e := 0, 0, 0;
      log, edit, delivered, ends := [], [], [], 0;
    }

    ghost function T(): Typed
      reads this
    {
      Typed(log, edit)
    }

    /** The indices are in order, the ring holds the unread and the unfinished bytes, and what has been
        delivered is exactly what was committed and read, in order. */
    ghost predicate Valid()
      reads this, buf
    {
      && buf.Length == INPUT_BUF && r <= w <= e <= r + INPUT_BUF && (e == r + INPUT_BUF ==> w == e)
      && w == |log| && e == w + |edit| && Unfinished(edit)
      && (forall k | r <= k < w :: buf[k % INPUT_BUF] == log[k])
      && (forall k | w <= k < e :: buf[k % INPUT_BUF] == edit[k - w])
      && delivered == Kept(log[..r]) && ends == Marks(log[..r])
    }

    // The default case of console_intr.
    method Store(c: byte)
      requires Valid() && c != 0 && e < r + INPUT_BUF
      requires c != LISTING && c != KILL && c != BACKSPACE && c != DELETE
      modifies `w, `e, `log, `edit, buf
      ensures Valid() && T() == Key(old(T()), r, c)
    {
      var d: byte := if c == RETURN then NEWLINE else c;
      forall k | r <= k < e
        ensures k % INPUT_BUF != e % INPUT_BUF
      {
        OtherSlot(k, e);
      }
      buf[e % INPUT_BUF] := d;
      e := e + 1;
      edit := edit + [d];
      if d == NEWLINE || d == EOF || e == r + INPUT_BUF {
        assert (log + edit)[..r] == log[..r];
        log, edit := log + edit, [];
        w := e;
      }
    }

    // C('U')
    method KillLine()
      requires Valid()
      modifies `e, `edit
      ensures Valid() && T() == Key(old(T()), r, KILL)
    {
      while e != w && buf[(e - 1) % INPUT_BUF] != NEWLINE
        invariant Valid() && Killed(edit) == Killed(old(edit))
        decreases e
      {
        e := e - 1;
        edit := edit[..|edit| - 1];
      }
      KillsAll(edit);
    }

    method Press(c: byte)
      requires Valid()
      modifies `w, `e, `log, `edit, buf
      ensures Valid() && T() == Key(old(T()), r, c)
    {
      if c == LISTING {
      } else if c == KILL {
        KillLine();
      } else if c == BACKSPACE || c == DELETE {
        if e != w {
          e := e - 1;
          edit := edit[..|edit| - 1];
        }
      } else if c != 0 && e - r < INPUT_BUF {
        Store(c);
      }
    }

    /** console_intr on the bytes that getc has: the keys take effect in order. */
    method Intr(cs: seq<byte>)
      requires Valid()
      modifies `w, `e, `log, `edit, buf
      ensures Valid() && T() == Keys(old(T()), r, cs)
    {
      var i := 0;
      while i < |cs|
        invariant i <= |cs| && Valid() && T() == Keys(old(T()), r, cs[..i])
      {
        assert cs[..i + 1][..i] == cs[..i];
        Press(cs[i]);
        i := i + 1;
      }
      assert cs[..|cs|] == cs;
    }

    // The byte at the read index is taken; a mark counts as an end of file.
    method Take() returns (c: byte)
      requires Valid() && r < w
      modifies `r, `delivered, `ends
      ensures Valid() && r == old(r) + 1 && c == log[old(r)]
      ensures if c == EOF then delivered == old(delivered) && ends == old(ends) + 1
              else delivered == old(delivered) + [c] && ends == old(ends)
    {
      c := buf[r % INPUT_BUF];
      assert log[..r + 1][..r] == log[..r];
      r := r + 1;
      if c == EOF {
        ends := ends + 1;
      } else {
        delivered := delivered + [c];
      }
    }

    /** console_read from acquiring the lock until it sleeps or returns, n of target bytes still to be
        read, k bytes consumed: the committed bytes are delivered in order, each once, up to the end of
        a line. A mark is consumed only as an end of file; after delivered bytes it is kept for the
        next read. It answers how many bytes the read has got, those of earlier turns included, or -1. */
    method ReadTurn(n0: nat, target: nat, killed: bool) returns (answer: int, got: seq<byte>, end: End, ghost k: nat)
      requires Valid() && n0 <= target
      modifies `r, `delivered, `ends
      ensures Valid() && r == old(r) + k <= |log| && TurnOk(log[old(r)..], n0, target, killed, got, k, end)
      ensures delivered == old(delivered) + got && ends == old(ends) + (if k > |got| then 1 else 0)
      ensures end == Returned ==> answer == (target - n0) + |got|
      ensures end == Dead ==> answer == -1
    {
      answer, got, end, k := 0, [], Returned, 0;
      ghost var unread := log[r..];
      var n: nat := n0;
      while n > 0
        invariant Valid() && Reading(unread, got, k) && n == n0 - k
        invariant r == old(r) + k && delivered == old(delivered) + got && ends == old(ends)
        decreases n
      {
        if r == w {
          end := if killed then Dead else Asleep;
          answer := -1;
          return;
        }
        if buf[r % INPUT_BUF] == EOF && n < target {
          break;
        }
        var c := Take();
        assert c == unread[k];
        k := k + 1;
        if c == EOF {
          break;
        }
        got, n := got + [c], n - 1;
        if c == NEWLINE {
          break;
        }
      }
      answer := target - n;
    }
  }

  // Only ordinary bytes have been delivered so far.
  ghost predicate Reading(unread: seq<byte>, got: seq<byte>, k: nat) {
    k == |got| <= |unread| && got == unread[..k] && EOF !in got && NEWLINE !in got
  }

  // ---------- every interleaving ----------

  // The console between two holders of its lock.
  datatype State = State(t: Typed, r: nat, delivered: seq<byte>, ends: nat)

  // What one holder does: an interrupt with the keys cs, or a turn of some reader.
  ghost predicate Interrupted(a: State, b: State, cs: seq<byte>) {
    b == a.(t := Keys(a.t, a.r, cs))
  }

  ghost predicate Read(a: State, b: State, n: nat, target: nat, killed: bool, got: seq<byte>, k: nat, end: End) {
    && a.r <= |a.t.log| && TurnOk(a.t.log[a.r..], n, target, killed, got, k, end)
    && b == State(a.t, a.r + k, a.delivered + got, a.ends + (if k > |got| then 1 else 0))
  }

  datatype Turn = Keystrokes(cs: seq<byte>) | Reader(n: nat, target: nat, killed: bool, got: seq<byte>, k: nat, end: End)

  ghost predicate Took(a: State, b: State, turn: Turn) {
    match turn
    case Keystrokes(cs) => Interrupted(a, b, cs)
    case Reader(n, target, killed, got, k, end) => Read(a, b, n, target, killed, got, k, end)
  }

  ghost predicate Run(ss: seq<State>, turns: seq<Turn>) {
    && |ss| == |turns| + 1 && ss[0] == State(Typed([], []), 0, [], 0)
    && forall i | 0 <= i < |turns| :: Took(ss[i], ss[i + 1], turns[i])
  }

  ghost predicate Delivers(s: State) {
    && s.r <= |s.t.log| && Unfinished(s.t.edit)
    && s.delivered == Kept(s.t.log[..s.r]) && s.ends == Marks(s.t.log[..s.r])
  }

  lemma {:induction false} KeysAppend(t: Typed, r: nat, cs: seq<byte>)
    requires Unfinished(t.edit)
    ensures t.log <= Keys(t, r, cs).log && Unfinished(Keys(t, r, cs).edit)
    decreases |cs|
  {
    if cs != [] {
      KeysAppend(t, r, cs[..|cs| - 1]);
      KeyAppends(Keys(t, r, cs[..|cs| - 1]), r, cs[|cs| - 1]);
    }
  }

  lemma {:induction false} KeptMore(a: seq<byte>, b: seq<byte>)
    requires EOF !in b
    ensures Kept(a + b) == Kept(a) + b && Marks(a + b) == Marks(a)
    decreases |b|
  {
    if b == [] {
      assert a + b == a;
    } else {
      var m := |b| - 1;
      assert (a + b)[..|a + b| - 1] == a + b[..m];
      KeptMore(a, b[..m]);
    }
  }

  lemma ReadDelivers(a: State, b: State, n: nat, target: nat, killed: bool, got: seq<byte>, k: nat, end: End)
    requires Delivers(a) && Read(a, b, n, target, killed, got, k, end)
    ensures Delivers(b)
  {
    var was, now := a.t.log[..a.r], a.t.log[..b.r];
    if k > |got| {
      assert now[..|now| - 1] == was && now[|now| - 1] == a.t.log[a.r..][0] == EOF;
      assert a.delivered + got == a.delivered;
    } else {
      assert now == was + a.t.log[a.r..][..k];
      KeptMore(was, got);
    }
  }

  /** For every interleaving of interrupts and readers: the bytes delivered, all together and in order,
      are the committed bytes up to the read index without the end-of-file marks, each mark was one end
      of file, and committed bytes never change. */
  lemma {:induction false} RunDelivers(ss: seq<State>, turns: seq<Turn>, k: nat)
    requires Run(ss, turns) && k < |ss|
    ensures Delivers(ss[k]) && (k > 0 ==> ss[k - 1].t.log <= ss[k].t.log)
  {
    if k > 0 {
      RunDelivers(ss, turns, k - 1);
      var a, b := ss[k - 1], ss[k];
      assert Took(a, b, turns[k - 1]);
      match turns[k - 1]
      case Keystrokes(cs) =>
        KeysAppend(a.t, a.r, cs);
        assert b.t.log[..b.r] == a.t.log[..a.r];
      case Reader(n, target, killed, got, j, end) => ReadDelivers(a, b, n, target, killed, got, j, end);
    }
  }
}
