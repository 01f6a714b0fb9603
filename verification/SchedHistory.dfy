/** What a run's history says of the things processes wait for: a sleeplock has one holder at a time,
    the log counts its open operations, and console_read takes no byte that was not committed. */
module SchedHistory {
  import opened Device
  import opened Sched
  import opened SchedInv
  import opened SchedRun

  // ---------- events ----------

  // What a step does to monitor m: process p gets past the test under the monitor's lock (it neither
  // goes to sleep nor gives up), or does what ch says under it, or commit empties the header.
  datatype Event = Still | Passed(p: nat) | Did(p: nat, ch: Choice) | Emptied

  function EventOf(s: State, c: nat, ch: Choice, t: State, m: nat): Event {
    if m >= |s.mons| || !AtPoint(s, c) || !Ready(t, c) then Still
    else
      match Cur(s, c).l
      case Test(p, n) => if n == m && !Cur(t, c).Spin? && !(ch.Stop? && s.mons[m].Input?) then Passed(p) else Still
      case Alter(p, n) => if n == m then Did(p, ch) else Still
      case Idle(_) => if ch == ClearLog(m) then Emptied else Still
      case _ => Still
  }

  datatype History = History(ss: seq<State>, cs: seq<nat>, chs: seq<Choice>)

  ghost predicate IsRun(h: History) {
    Run(h.ss, h.cs, h.chs)
  }

  function EventAt(h: History, k: nat, m: nat): Event {
    if k < |h.cs| && k < |h.chs| && k + 1 < |h.ss| then EventOf(h.ss[k], h.cs[k], h.chs[k], h.ss[k + 1], m) else Still
  }

  // How many of the first k steps got a process past the test.
  function Passings(h: History, m: nat, k: nat): nat {
    if k == 0 then 0 else Passings(h, m, k - 1) + (if EventAt(h, k - 1, m).Passed? then 1 else 0)
  }

  // How many did ch.
  function Doings(h: History, m: nat, ch: Choice, k: nat): nat {
    if k == 0 then 0
    else
      var e := EventAt(h, k - 1, m);
      Doings(h, m, ch, k - 1) + (if e.Did? && e.ch == ch then 1 else 0)
  }

  // What a step does to a monitor, told from the event.
  ghost predicate Effect(a: Mon, e: Event, b: Mon) {
    match a
    case SleepLock(locked, pid) =>
      if e.Passed? then !locked && b == SleepLock(true, Some(e.p))
      else if e.Did? then e.ch == Unlock && b == SleepLock(false, None)
      else b == a
    case LogSpace(n, out, com) =>
      if e.Passed? then !com && n + (out + 1) * 10 <= 30 && b == LogSpace(n, out + 1, false)
      else if e.Emptied? then com && b == LogSpace(0, out, true)
      else if !e.Did? then b == a
      else if e.ch == EndOp then !com && b == LogSpace(n, out - 1, out == 1)
      else if e.ch == EndCommit then b == LogSpace(n, out, false)
      else e.ch.Append? && b == LogSpace(if e.ch.grow then n + 1 else n, out, com)
    case Input(r, w) =>
      if e.Passed? then r != w && b == Input(r + 1, w)
      else if e.Did? then e.ch.Commit? && b == Input(r, w + e.ch.lines)
      else b == a
  }

  lemma MonEffect(s: State, c: nat, ch: Choice, t: State, m: nat)
    requires AtPoint(s, c) && MonStep(s, c, ch) == Some(t) && m < |s.mons|
    ensures |t.mons| == |s.mons| && Effect(s.mons[m], EventOf(s, c, ch, t, m), t.mons[m])
  {
    hide LockEnabled, LockStep, Holding;
    match Cur(s, c).l
    case Test(p, n) =>
    case Alter(p, n) =>
    case Idle(p) =>
    case _ =>
  }

  lemma MovedEffect(s: State, c: nat, ch: Choice, t: State, m: nat)
    requires AtPoint(s, c) && Moved(s, c, ch).Some? && t == SetCur(s, c, Moved(s, c, ch).value) && m < |s.mons|
    ensures t.mons == s.mons && EventOf(s, c, ch, t, m) == Still
  {
    hide Effect;
  }

  lemma OtherEffect(s: State, c: nat, ch: Choice, t: State, m: nat)
    requires (LockEnabled(s, c) && t == LockStep(s, c)) || (AtPoint(s, c) && (ProcStep(s, c) == Some(t) || CpuStep(s, c) == Some(t)))
    requires m < |s.mons|
    ensures t.mons == s.mons && EventOf(s, c, ch, t, m) == Still
  {
    hide Effect, Holding;
  }

  lemma StepEffect(s: State, c: nat, ch: Choice, t: State, m: nat)
    requires Next(s, c, ch, t) && m < |s.mons|
    ensures |t.mons| == |s.mons| && Effect(s.mons[m], EventOf(s, c, ch, t, m), t.mons[m])
  {
    hide Moved, MonStep, ProcStep, CpuStep, LockStep, EventOf, LockEnabled;
    if AtPoint(s, c) && MonStep(s, c, ch) == Some(t) {
      MonEffect(s, c, ch, t, m);
    } else if AtPoint(s, c) && Moved(s, c, ch).Some? && t == SetCur(s, c, Moved(s, c, ch).value) {
      MovedEffect(s, c, ch, t, m);
    } else {
      OtherEffect(s, c, ch, t, m);
    }
  }

  lemma FirstFresh(h: History, m: nat)
    requires IsRun(h) && h.ss != [] && m < |h.ss[0].mons|
    ensures Fresh(h.ss[0].mons[m])
  {
  }

  // What monitor m was, and how the next step changed it.
  lemma StepAt(h: History, m: nat, k: nat)
    requires IsRun(h) && k + 1 < |h.ss| && m < |h.ss[k].mons|
    ensures |h.ss[k + 1].mons| == |h.ss[k].mons| && Effect(h.ss[k].mons[m], EventAt(h, k, m), h.ss[k + 1].mons[m])
  {
    StepEffect(h.ss[k], h.cs[k], h.chs[k], h.ss[k + 1], m);
  }

  // ---------- nobody gets past without passing ----------

  // The process is inside acquiresleep, begin_op or console_read, with monitor m.
  predicate Calling(pc: PC, m: nat) {
    match pc.l
    case Test(_, n) => n == m
    case Bed(_, n) => n == m
    case Lie(_, n) => n == m
    case Down(_, n) => n == m
    case Switch(_, why) => why == Slept(m)
    case Back(_, why) => why == Slept(m)
    case Again(_, n) => n == m
    case _ => false
  }

  // What runs on the CPU is at a point of its own.
  predicate InStep(s: State, c: nat)
    requires Ready(s, c)
  {
    match s.cpus[c].run
    case None => IsSched(Cur(s, c).l)
    case Some(p) => !IsSched(Cur(s, c).l) && Self(Cur(s, c).l) == p
  }

  lemma MonCalls(s: State, c: nat, ch: Choice, t: State, m: nat, p: nat)
    requires AtPoint(s, c) && MonStep(s, c, ch) == Some(t) && p < |s.procs| && Calling(s.procs[p].pc, m)
    requires m < |s.mons| && InStep(s, c)
    ensures |t.procs| == |s.procs|
    ensures Calling(t.procs[p].pc, m) || EventOf(s, c, ch, t, m) == Passed(p)
  {
    hide LockEnabled, LockStep, Holding, Effect;
  }

  lemma OtherCalls(s: State, c: nat, ch: Choice, t: State, m: nat, p: nat)
    requires (LockEnabled(s, c) && t == LockStep(s, c)) || (AtPoint(s, c) && (ProcStep(s, c) == Some(t) || CpuStep(s, c) == Some(t)))
    requires p < |s.procs| && Calling(s.procs[p].pc, m) && InStep(s, c)
    ensures |t.procs| == |s.procs| && Calling(t.procs[p].pc, m)
  {
    hide Holding, Effect;
  }

  /** A process that waits for a sleeplock, for room in the log or for input goes on doing so, asleep or
      awake, until it gets past the test; only console_read may give up. */
  lemma OnlyByPassing(s: State, c: nat, ch: Choice, t: State, m: nat, p: nat)
    requires Reachable(s) && c < |s.cpus| && Ready(s, c) && Next(s, c, ch, t)
    requires p < |s.procs| && m < |s.mons| && Calling(s.procs[p].pc, m)
    ensures |t.procs| == |s.procs|
    ensures || Calling(t.procs[p].pc, m) || EventOf(s, c, ch, t, m) == Passed(p)
            || (s.cpus[c].run == Some(p) && ch == Stop && s.mons[m].Input?)
  {
    ReachInv(s);
    assert CpuOk(s, c);
    hide MonStep, ProcStep, CpuStep, LockStep, EventOf, LockEnabled, Effect;
    if AtPoint(s, c) && MonStep(s, c, ch) == Some(t) {
      MonCalls(s, c, ch, t, m, p);
    } else if AtPoint(s, c) && Moved(s, c, ch).Some? && t == SetCur(s, c, Moved(s, c, ch).value) {
    } else {
      OtherCalls(s, c, ch, t, m, p);
    }
  }

  // ---------- sleeplocks ----------

  // After k steps p has got past acquiresleep's test and has not called releasesleep since.
  ghost predicate Inside(h: History, m: nat, p: nat, k: nat) {
    k > 0 &&
      var e := EventAt(h, k - 1, m);
      if e.Passed? && e.p == p then true
      else if e.Did? && e.ch == Unlock && e.p == p then false
      else Inside(h, m, p, k - 1)
  }

  // Only a process inside calls releasesleep.
  ghost predicate Proper(h: History, m: nat, k: nat) {
    forall i: nat | i < k && EventAt(h, i, m).Did? && EventAt(h, i, m).ch == Unlock :: Inside(h, m, EventAt(h, i, m).p, i)
  }

  // The lock names the process inside.
  ghost predicate Named(h: History, m: nat, k: nat)
    requires k < |h.ss|
  {
    && m < |h.ss[k].mons| && h.ss[k].mons[m].SleepLock?
    && (h.ss[k].mons[m].locked <==> h.ss[k].mons[m].pid.Some?)
    && forall p: nat :: Inside(h, m, p, k) <==> h.ss[k].mons[m].pid == Some(p)
  }

  lemma {:induction false} AlwaysNamed(h: History, m: nat, k: nat)
    requires IsRun(h) && k < |h.ss| && m < |h.ss[0].mons| && h.ss[0].mons[m].SleepLock? && Proper(h, m, k)
    ensures Named(h, m, k)
    ensures Passings(h, m, k) == Doings(h, m, Unlock, k) + (if h.ss[k].mons[m].locked then 1 else 0)
  {
    hide IsRun, EventAt;
    if k == 0 {
      FirstFresh(h, m);
    } else {
      AlwaysNamed(h, m, k - 1);
      StepAt(h, m, k - 1);
      forall p: nat
        ensures Inside(h, m, p, k) <==> h.ss[k].mons[m].pid == Some(p)
      {
        assert Inside(h, m, p, k - 1) <==> h.ss[k - 1].mons[m].pid == Some(p);
      }
    }
  }

  /** A sleeplock has at most one holder. If only its holder releases it, then on every run a process is
      inside exactly if the lock is taken in its name, which is what holdingsleep answers; so no two are
      inside, nobody gets in while somebody is, and those who got in and those who left again differ
      in number by the one who is still inside. */
  lemma OneHolder(h: History, m: nat, k: nat)
    requires IsRun(h) && k < |h.ss| && m < |h.ss[0].mons| && h.ss[0].mons[m].SleepLock? && Proper(h, m, k)
    ensures |h.ss[k].mons| > m && h.ss[k].mons[m].SleepLock?
    ensures forall p: nat :: Inside(h, m, p, k) <==> h.ss[k].mons[m] == SleepLock(true, Some(p))
    ensures forall p: nat, q: nat :: Inside(h, m, p, k) && Inside(h, m, q, k) ==> p == q
    ensures EventAt(h, k, m).Passed? ==> forall p: nat :: !Inside(h, m, p, k)
    ensures Passings(h, m, k) == Doings(h, m, Unlock, k) + (if exists p: nat :: Inside(h, m, p, k) then 1 else 0)
  {
    AlwaysNamed(h, m, k);
    var mon := h.ss[k].mons[m];
    if mon.locked {
      assert Inside(h, m, mon.pid.value, k);
    }
    if k < |h.cs| {
      StepAt(h, m, k);
    }
  }

  // ---------- the log's operations ----------

  // Blocks appended since commit last emptied the header.
  ghost function Recorded(h: History, m: nat, k: nat): nat {
    if k == 0 then 0
    else
      var e := EventAt(h, k - 1, m);
      if e.Emptied? then 0 else Recorded(h, m, k - 1) + (if e.Did? && e.ch == Append(true) then 1 else 0)
  }

  // The last operation that was open has ended, and the commit it makes has not.
  ghost predicate Committing(h: History, m: nat, k: nat) {
    k > 0 &&
      var e := EventAt(h, k - 1, m);
      if e.Did? && e.ch == EndOp then Passings(h, m, k) == Doings(h, m, EndOp, k)
      else if e.Did? && e.ch == EndCommit then false
      else Committing(h, m, k - 1)
  }

  // What monitor m is after k steps.
  ghost predicate Counts(h: History, m: nat, k: nat)
    requires k < |h.ss|
  {
    && m < |h.ss[k].mons|
    && h.ss[k].mons[m] == LogSpace(Recorded(h, m, k), Passings(h, m, k) - Doings(h, m, EndOp, k), Committing(h, m, k))
    && (Committing(h, m, k) ==> Passings(h, m, k) == Doings(h, m, EndOp, k))
  }

  // One event more.
  lemma CountsMore(h: History, m: nat, k: nat)
    requires k + 1 < |h.ss| && Counts(h, m, k) && m < |h.ss[k + 1].mons|
    requires Effect(h.ss[k].mons[m], EventAt(h, k, m), h.ss[k + 1].mons[m])
    ensures Counts(h, m, k + 1)
  {
    hide EventAt;
    var e := EventAt(h, k, m);
    assert Passings(h, m, k + 1) == Passings(h, m, k) + (if e.Passed? then 1 else 0);
    assert Doings(h, m, EndOp, k + 1) == Doings(h, m, EndOp, k) + (if e.Did? && e.ch == EndOp then 1 else 0);
  }

  lemma {:induction false} AlwaysCounts(h: History, m: nat, k: nat)
    requires IsRun(h) && k < |h.ss| && m < |h.ss[0].mons| && h.ss[0].mons[m].LogSpace?
    ensures Counts(h, m, k)
  {
    hide IsRun, EventAt;
    if k == 0 {
      FirstFresh(h, m);
    } else {
      AlwaysCounts(h, m, k - 1);
      hide Effect, Passings, Doings, Recorded, Committing;
      StepAt(h, m, k - 1);
      CountsMore(h, m, k - 1);
    }
  }

  /** On every run log.outstanding is the number of operations begun and not ended, log.lh.n that of the
      blocks appended since the last commit, and committing is set from the end of the last open
      operation to the end of its commit; none begins, ends or is open meanwhile. And when one begins,
      MAXOPBLOCKS blocks are left for it and for each that is open. */
  lemma OperationsCounted(h: History, m: nat, k: nat)
    requires IsRun(h) && k < |h.ss| && m < |h.ss[0].mons| && h.ss[0].mons[m].LogSpace?
    ensures m < |h.ss[k].mons|
    ensures var open := Passings(h, m, k) - Doings(h, m, EndOp, k);
            && h.ss[k].mons[m] == LogSpace(Recorded(h, m, k), open, Committing(h, m, k))
            && (Committing(h, m, k) ==> open == 0)
            && (EventAt(h, k, m).Passed? ==> !Committing(h, m, k) && Recorded(h, m, k) + (open + 1) * 10 <= 30)
            && (EventAt(h, k, m).Did? && EventAt(h, k, m).ch == EndOp ==> !Committing(h, m, k))
  {
    AlwaysCounts(h, m, k);
    hide Passings, Doings, Recorded, Committing;
    if k < |h.cs| {
      StepAt(h, m, k);
    }
  }

  // ---------- console input ----------

  // Bytes committed in the first k steps.
  ghost function Committed(h: History, m: nat, k: nat): nat {
    if k == 0 then 0
    else
      var e := EventAt(h, k - 1, m);
      Committed(h, m, k - 1) + (if e.Did? && e.ch.Commit? then e.ch.lines else 0)
  }

  // What monitor m is after k steps.
  ghost predicate Taken(h: History, m: nat, k: nat)
    requires k < |h.ss|
  {
    && m < |h.ss[k].mons| && h.ss[k].mons[m] == Input(Passings(h, m, k), Committed(h, m, k))
    && Passings(h, m, k) <= Committed(h, m, k)
  }

  lemma TakenMore(h: History, m: nat, k: nat)
    requires k + 1 < |h.ss| && Taken(h, m, k) && m < |h.ss[k + 1].mons|
    requires Effect(h.ss[k].mons[m], EventAt(h, k, m), h.ss[k + 1].mons[m])
    ensures Taken(h, m, k + 1)
  {
    hide EventAt;
  }

  lemma {:induction false} AlwaysTaken(h: History, m: nat, k: nat)
    requires IsRun(h) && k < |h.ss| && m < |h.ss[0].mons| && h.ss[0].mons[m].Input?
    ensures Taken(h, m, k)
  {
    hide IsRun, EventAt;
    if k == 0 {
      FirstFresh(h, m);
    } else {
      AlwaysTaken(h, m, k - 1);
      hide Effect, Passings, Committed;
      StepAt(h, m, k - 1);
      TakenMore(h, m, k - 1);
    }
  }

  /** On every run the read index is the number of bytes taken and the write index that of the bytes
      committed, and no byte is taken before it is committed. */
  lemma BytesCounted(h: History, m: nat, k: nat)
    requires IsRun(h) && k < |h.ss| && m < |h.ss[0].mons| && h.ss[0].mons[m].Input?
    ensures m < |h.ss[k].mons|
    ensures h.ss[k].mons[m] == Input(Passings(h, m, k), Committed(h, m, k)) && Passings(h, m, k) <= Committed(h, m, k)
    ensures EventAt(h, k, m).Passed? ==> Passings(h, m, k) < Committed(h, m, k)
  {
    AlwaysTaken(h, m, k);
    hide Passings, Committed;
    if k < |h.cs| {
      StepAt(h, m, k);
    }
  }
}
