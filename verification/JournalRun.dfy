/** What the journal promises over whole runs: a transactional store behind any interleaving and
    any crashes, and the write-ahead rule. */
module JournalRun {
  import opened Bytes
  import opened Device
  import opened Redo
  import opened Journal
  import opened JournalBooks
  import opened JournalInv

  // ---------- the store a state stands for ----------

  lemma HeadAlways(c: Config, s: State)
    requires Inv(c, s)
    ensures HeadOk(c.g, s.disk)
    ensures s.phase.Normal? || s.phase.WritingLog? || s.phase.Finishing? ==> SameHome(c.g, Recovered(c.g, s.disk), s.disk)
  {
    if LogEmpty(c.g, s.disk) {
      RecoverEmpty(c.g, s.disk);
    }
  }

  // What a completed recovery would leave if the machine stopped now.
  ghost function Durable(c: Config, s: State): (d: Disk)
    requires Inv(c, s)
    ensures |d| == |s.disk|
  {
    HeadAlways(c, s);
    Recovered(c.g, s.disk)
  }

  // What the processes read: bread's answers, and until recovery is over what it will leave.
  ghost function Latest(c: Config, s: State): (d: Disk)
    requires Inv(c, s)
    ensures |d| == |s.disk|
  {
    if Recovering(s.phase) then Durable(c, s) else seq(|s.disk|, x requires 0 <= x < |s.disk| => View(s, x))
  }

  // While a whole transaction is in the log, recovery would install it.
  lemma DurableInstalling(c: Config, s: State)
    requires Inv(c, s) && s.phase.Installing?
    ensures forall k | 0 <= k < |s.lh| :: Durable(c, s)[s.lh[k]] == s.disk[LogSector(c.g, k)]
    ensures forall x: nat | x < |s.disk| && !InLog(c.g, x) && x !in s.lh :: Durable(c, s)[x] == s.disk[x]
  {
    RecordReachesIff(c.g);
    RecoveredAt(c.g, s.disk);
    assert InLog(c.g, HeadSector(c.g));
  }

  // Once everything logged is installed, recovery changes nothing.
  lemma DurableClearing(c: Config, s: State)
    requires Inv(c, s) && s.phase.Clearing?
    ensures SameHome(c.g, Durable(c, s), s.disk)
  {
    RecordReachesIff(c.g);
    RecoveredAt(c.g, s.disk);
    assert InLog(c.g, HeadSector(c.g));
  }

  // Nothing dirty, nothing being changed: bread shows the device.
  lemma CleanShows(c: Config, s: State, x: nat)
    requires Inv(c, s) && s.outstanding == 0 && x < |s.disk| && x !in Todo(s)
    ensures View(s, x) == s.disk[x]
  {
    BudgetBound(s.ops, c.share);
  }

  // Once the header is written, and whenever no operation is open and no commit is running, a
  // crash loses nothing.
  lemma NothingToLose(c: Config, s: State)
    requires Inv(c, s) && !s.phase.WritingLog? && s.outstanding == 0
    ensures SameHome(c.g, Latest(c, s), Durable(c, s))
  {
    if !Recovering(s.phase) {
      HeadAlways(c, s);
      if s.phase.Installing? {
        DurableInstalling(c, s);
      } else if s.phase.Clearing? {
        DurableClearing(c, s);
      }
      forall x: nat | x < |s.disk| && !InLog(c.g, x)
        ensures View(s, x) == Durable(c, s)[x]
      {
        if x !in Todo(s) {
          CleanShows(c, s, x);
        }
      }
    }
  }

  // A step as the user of transactions sees it.
  ghost predicate Abstract(c: Config, s: State, st: Step)
    requires Inv(c, s) && Enabled(c, s, st)
  {
    StepInv(c, s, st);
    var t := Do(c, s, st);
    match st
    case Modify(p, x, v) =>
      && x < |s.disk|
      && SameHome(c.g, Latest(c, t), Latest(c, s)[x := v]) && SameHome(c.g, Durable(c, t), Durable(c, s))
    case WriteHead =>
      && OpenCount(s.ops) == 0
      && SameHome(c.g, Latest(c, t), Latest(c, s)) && SameHome(c.g, Durable(c, t), Latest(c, s))
    case Crash =>
      SameHome(c.g, Latest(c, t), Durable(c, s)) && SameHome(c.g, Durable(c, t), Durable(c, s))
    case _ =>
      SameHome(c.g, Latest(c, t), Latest(c, s)) && SameHome(c.g, Durable(c, t), Durable(c, s))
  }

  // The device, the cached contents and the phase's class stay.
  lemma SameAbstract(c: Config, s: State, t: State)
    requires Inv(c, s) && Inv(c, t) && t.disk == s.disk && Recovering(t.phase) == Recovering(s.phase)
    requires forall x: nat | x < |s.disk| :: View(t, x) == View(s, x)
    ensures Latest(c, t) == Latest(c, s) && Durable(c, t) == Durable(c, s)
  {
  }

  lemma OperationShows(c: Config, s: State, st: Step, t: State)
    requires Inv(c, s) && Enabled(c, s, st) && t == Do(c, s, st)
    requires st.Begin? || st.Check? || st.End? || st.Record?
    ensures t.disk == s.disk && Recovering(t.phase) == Recovering(s.phase)
    ensures forall x: nat | x < |s.disk| :: View(t, x) == View(s, x)
  {
    hide Core, BooksOk;
    if st.End? {
      OpenIsNormal(c, s, st.p);
    }
  }

  lemma OperationAbstract(c: Config, s: State, st: Step)
    requires Inv(c, s) && Enabled(c, s, st)
    requires st.Begin? || st.Check? || st.End? || st.Record?
    ensures Abstract(c, s, st)
  {
    hide Core, BooksOk, Enabled, Do, Latest, Durable;
    StepInv(c, s, st);
    OperationShows(c, s, st, Do(c, s, st));
    SameAbstract(c, s, Do(c, s, st));
  }

  lemma BufferAbstract(c: Config, s: State, st: Step)
    requires Inv(c, s) && Enabled(c, s, st)
    requires st.Fill? || st.Evict? || st.Hold? || st.Release?
    ensures Abstract(c, s, st)
  {
    hide BooksOk, Latest, Durable, DiskOk, BuffersOk, Shape;
    StepInv(c, s, st);
    SameAbstract(c, s, Do(c, s, st));
  }

  lemma ModifyShows(c: Config, s: State, st: Step, t: State)
    requires Inv(c, s) && Enabled(c, s, st) && st.Modify? && t == Do(c, s, st)
    ensures t.disk == s.disk && t.phase == s.phase && !Recovering(s.phase) && st.x < |s.disk|
    ensures forall y: nat | y < |s.disk| :: View(t, y) == if y == st.x then st.v else View(s, y)
  {
    hide CacheOk, DiskOk, Placed, BooksOk;
    OpenIsNormal(c, s, st.p);
  }

  lemma ModifyAbstract(c: Config, s: State, st: Step)
    requires Inv(c, s) && Enabled(c, s, st) && st.Modify?
    ensures Abstract(c, s, st)
  {
    hide Core, BooksOk, Enabled, Do, View;
    StepInv(c, s, st);
    ModifyShows(c, s, st, Do(c, s, st));
  }

  lemma WriteLogBlockAbstract(c: Config, s: State)
    requires Inv(c, s) && Enabled(c, s, WriteLogBlock)
    ensures Abstract(c, s, WriteLogBlock)
  {
    hide CacheOk, BooksOk, NoneTwice, BuffersOk, Sane, LogEmpty, HeadOk, Recovered;
    StepInv(c, s, WriteLogBlock);
    HeadAlways(c, s);
    HeadAlways(c, Do(c, s, WriteLogBlock));
    assert InLog(c.g, LogSector(c.g, s.phase.i));
  }

  // Writing a log sector does not show outside the log.
  lemma LogWriteShows(c: Config, s: State, y: nat, v: Block, ph: Phase, x: nat)
    requires y < |s.disk| && InLog(c.g, y) && x < |s.disk| && !InLog(c.g, x)
    ensures View(Wrote(s, y, v, ph), x) == View(s, x)
  {
  }

  lemma WriteHeadShows(c: Config, s: State, t: State)
    requires Inv(c, s) && Enabled(c, s, WriteHead) && t == Do(c, s, WriteHead) && Inv(c, t)
    ensures SameHome(c.g, Latest(c, t), Latest(c, s))
  {
    hide CacheOk, DiskOk;
    var y := HeadSector(c.g);
    forall x: nat | x < |s.disk| && !InLog(c.g, x)
      ensures View(t, x) == View(s, x)
    {
      LogWriteShows(c, s, y, HeadBlock(View(s, y), s.lh), Installing(0, false), x);
    }
  }

  lemma WriteHeadAbstract(c: Config, s: State)
    requires Inv(c, s) && Enabled(c, s, WriteHead)
    ensures Abstract(c, s, WriteHead)
  {
    hide CacheOk, DiskOk, Shape;
    StepInv(c, s, WriteHead);
    WriteHeadShows(c, s, Do(c, s, WriteHead));
    NothingToLose(c, Do(c, s, WriteHead));
  }

  lemma InstallKeepsDurable(c: Config, s: State, t: State)
    requires Inv(c, s) && Enabled(c, s, InstallBlock) && t == Do(c, s, InstallBlock) && Inv(c, t)
    ensures SameHome(c.g, Durable(c, t), Durable(c, s))
  {
    hide BooksOk, CacheOk, NoneTwice;
    RecordReachesIff(c.g);
    DurableInstalling(c, s);
    DurableInstalling(c, t);
    assert !InLog(c.g, Home(c.g, s.lh[s.phase.i]));
    forall x: nat | x < |s.disk| && !InLog(c.g, x)
      ensures Durable(c, t)[x] == Durable(c, s)[x]
    {
      if x in s.lh {
        var k :| 0 <= k < |s.lh| && s.lh[k] == x;
        assert InLog(c.g, LogSector(c.g, k));
      }
    }
  }

  lemma SameHomeAround(g: Geometry, a: Disk, b: Disk, x: Disk, y: Disk)
    requires SameHome(g, a, b) && SameHome(g, b, x) && SameHome(g, y, x)
    ensures SameHome(g, a, y)
  {
  }

  lemma InstallBlockAbstract(c: Config, s: State)
    requires Inv(c, s) && Enabled(c, s, InstallBlock)
    ensures Abstract(c, s, InstallBlock)
  {
    StepInv(c, s, InstallBlock);
    var t := Do(c, s, InstallBlock);
    InstallKeepsDurable(c, s, t);
    NothingToLose(c, s);
    NothingToLose(c, t);
    SameHomeAround(c.g, Latest(c, t), Durable(c, t), Durable(c, s), Latest(c, s));
  }

  lemma ClearAbstract(c: Config, s: State, st: Step)
    requires Inv(c, s) && Enabled(c, s, st)
    requires st.ClearCount? || st.Finish? || st.ReadHead?
    ensures Abstract(c, s, st)
  {
    hide CacheOk, Placed, BooksOk;
    StepInv(c, s, st);
    assert Do(c, s, st).disk == s.disk;
  }

  lemma ClearHeadAbstract(c: Config, s: State)
    requires Inv(c, s) && Enabled(c, s, ClearHead)
    ensures Abstract(c, s, ClearHead)
  {
    StepInv(c, s, ClearHead);
    var t := Do(c, s, ClearHead);
    DurableClearing(c, s);
    HeadAlways(c, t);
    assert InLog(c.g, HeadSector(c.g));
    NothingToLose(c, s);
    NothingToLose(c, t);
  }

  lemma CrashAbstract(c: Config, s: State)
    requires Inv(c, s)
    ensures Abstract(c, s, Crash)
  {
    StepInv(c, s, Crash);
    assert Do(c, s, Crash).disk == s.disk;
  }

  /** Refinement: every step is a step of a store that is written in place, committed as a whole
      when no operation is open, and rolled back by a crash. */
  lemma StepAbstract(c: Config, s: State, st: Step)
    requires Inv(c, s) && Enabled(c, s, st)
    ensures Abstract(c, s, st)
  {
    if st.Begin? || st.Check? || st.End? || st.Record? {
      OperationAbstract(c, s, st);
    } else if st.Fill? || st.Evict? || st.Hold? || st.Release? {
      BufferAbstract(c, s, st);
    } else if st.Modify? {
      ModifyAbstract(c, s, st);
    } else if st.WriteLogBlock? {
      WriteLogBlockAbstract(c, s);
    } else if st.WriteHead? {
      WriteHeadAbstract(c, s);
    } else if st.InstallBlock? {
      InstallBlockAbstract(c, s);
    } else if st.ClearHead? {
      ClearHeadAbstract(c, s);
    } else if st.Crash? {
      CrashAbstract(c, s);
    } else {
      ClearAbstract(c, s, st);
    }
  }

  // ---------- runs ----------

  lemma {:induction false} RunInv(c: Config, ss: seq<State>, sts: seq<Step>, k: nat)
    requires ConfigOk(c) && Run(c, ss, sts) && k < |ss|
    ensures Inv(c, ss[k])
  {
    if k == 0 {
      InitInv(c, ss[0]);
    } else {
      RunInv(c, ss, sts, k - 1);
      StepInv(c, ss[k - 1], sts[k - 1]);
    }
  }

  // The store the schedule describes: its contents, and what the last commit saved of them.
  datatype Store = Store(now: Disk, saved: Disk)

  ghost function Apply(r: Store, st: Step): Store
  {
    match st
    case Modify(p, x, v) => if x < |r.now| then r.(now := r.now[x := v]) else r
    case WriteHead => r.(saved := r.now)
    case Crash => r.(now := r.saved)
    case _ => r
  }

  ghost predicate Tracks(c: Config, s: State, r: Store)
    requires Inv(c, s)
  {
    SameHome(c.g, Latest(c, s), r.now) && SameHome(c.g, Durable(c, s), r.saved)
  }

  ghost function Replay(d: Disk, sts: seq<Step>, k: nat): Store
    requires k <= |sts|
  {
    if k == 0 then Store(d, d)
    else
      Apply(Replay(d, sts, k - 1), sts[k - 1])
  }

  lemma ApplyStep(c: Config, s: State, st: Step, r: Store)
    requires Inv(c, s) && Enabled(c, s, st) && Tracks(c, s, r) && Inv(c, Do(c, s, st))
    ensures Tracks(c, Do(c, s, st), Apply(r, st))
  {
    hide Inv, Enabled, Do, Latest, Durable;
    StepAbstract(c, s, st);
  }

  lemma QuietHead(c: Config, s: State)
    requires Inv(c, s)
    ensures Enabled(c, s, WriteHead) ==> forall p | 0 <= p < |s.ops| :: s.ops[p].Idle?
  {
    BudgetBound(s.ops, c.share);
  }

  /** Crash consistency of every run: whatever the interleaving and wherever the crashes, bread
      shows the changes of the schedule, a crash brings back exactly the contents at the last
      header write, and no operation is open at a header write. */
  lemma {:induction false} RunIsReplay(c: Config, ss: seq<State>, sts: seq<Step>, k: nat)
    requires ConfigOk(c) && Run(c, ss, sts) && k < |ss|
    ensures Inv(c, ss[k])
    ensures Tracks(c, ss[k], Replay(ss[0].disk, sts, k))
    ensures k < |sts| && sts[k].WriteHead? ==> forall p | 0 <= p < |ss[k].ops| :: ss[k].ops[p].Idle?
  {
    RunInv(c, ss, sts, k);
    QuietHead(c, ss[k]);
    if k == 0 {
      RecoverEmpty(c.g, ss[0].disk);
    } else {
      RunIsReplay(c, ss, sts, k - 1);
      ApplyStep(c, ss[k - 1], sts[k - 1], Replay(ss[0].disk, sts, k - 1));
    }
  }

  /** Durability in every run: while no operation is open, a crash brings back exactly what bread
      shows, except between the last end_op and the writing of the header. */
  lemma NothingLost(c: Config, ss: seq<State>, sts: seq<Step>, k: nat)
    requires ConfigOk(c) && Run(c, ss, sts) && k < |ss| && ss[k].outstanding == 0 && !ss[k].phase.WritingLog?
    ensures Inv(c, ss[k]) && SameHome(c.g, Latest(c, ss[k]), Durable(c, ss[k]))
  {
    RunInv(c, ss, sts, k);
    NothingToLose(c, ss[k]);
  }

  // ---------- the write-ahead rule ----------

  ghost predicate Kept(s: State, t: State, x: u32) {
    x in Todo(t) && x in t.cache && x < |s.disk| == |t.disk| && t.disk[x] == s.disk[x]
  }

  lemma InstallValue(c: Config, s: State)
    requires Inv(c, s) && Enabled(c, s, InstallBlock) && !s.phase.boot
    ensures View(s, LogSector(c.g, s.phase.i)) == View(s, Home(c.g, s.lh[s.phase.i]))
  {
    RecordReachesIff(c.g);
    LogClean(c, s, LogSector(c.g, s.phase.i));
  }

  // Writing one sector through its buffer keeps the logged blocks of the others.
  lemma WroteKeeps(c: Config, s: State, y: nat, v: Block, ph: Phase, t: State, x: u32)
    requires Shape(c, s) && CacheOk(c, s) && y < |s.disk| && x in Todo(s) && x != y
    requires t == Wrote(s, y, v, ph) && x in Todo(t)
    ensures Kept(s, t, x)
  {
  }

  lemma InstallKeeps(c: Config, s: State, x: u32, t: State)
    requires Inv(c, s) && Enabled(c, s, InstallBlock) && x in Todo(s) && t == Do(c, s, InstallBlock)
    ensures if x == s.lh[s.phase.i] then x !in Todo(t) && x < |t.disk| && t.disk[x] == View(s, x) else Kept(s, t, x)
  {
    RecordReachesIff(c.g);
    TodoStep(c, s);
    var y := s.lh[s.phase.i];
    assert t == Wrote(s, y, View(s, LogSector(c.g, s.phase.i)), Installing(s.phase.i + 1, s.phase.boot));
    if x == y {
      InstallValue(c, s);
    } else {
      WroteKeeps(c, s, y, View(s, LogSector(c.g, s.phase.i)), Installing(s.phase.i + 1, s.phase.boot), t, x);
    }
  }

  lemma LogWriteKeeps(c: Config, s: State, y: nat, v: Block, ph: Phase, x: u32)
    requires Shape(c, s) && CacheOk(c, s) && x in Todo(s)
    requires InLog(c.g, y) && y < |s.disk| && Todo(s.(phase := ph)) == Todo(s)
    ensures Kept(s, Wrote(s, y, v, ph), x)
  {
    TodoOutside(c, s, y);
    assert Todo(Wrote(s, y, v, ph)) == Todo(s);
    WroteKeeps(c, s, y, v, ph, Wrote(s, y, v, ph), x);
  }

  lemma TodoCached(c: Config, s: State, x: u32)
    requires Core(c, s) && x in Todo(s)
    ensures x in s.cache && x < |s.disk|
  {
  }

  lemma BufferKeeps(c: Config, s: State, st: Step, x: u32)
    requires Inv(c, s) && Enabled(c, s, st) && x in Todo(s)
    requires st.Fill? || st.Evict? || st.Hold? || st.Modify? || st.Record? || st.Release?
    ensures Kept(s, Do(c, s, st), x)
  {
    assert x in s.cache && x < |s.disk|;
  }

  lemma CountKeeps(c: Config, s: State, st: Step, x: u32)
    requires Inv(c, s) && Enabled(c, s, st) && x in Todo(s)
    requires st.Begin? || st.Check? || st.End?
    ensures Kept(s, Do(c, s, st), x)
  {
    TodoCached(c, s, x);
    if st.End? {
      OpenIsNormal(c, s, st.p);
    }
    hide Core, BooksOk;
    assert Do(c, s, st).cache == s.cache;
  }

  // When the count is cleared nothing is left to install.
  lemma NoneLeft(c: Config, s: State, st: Step)
    requires Inv(c, s) && Enabled(c, s, st)
    requires st.ClearCount? || st.ClearHead? || st.Finish? || st.ReadHead?
    ensures Todo(s) == []
  {
  }

  lemma LogBlockKeeps(c: Config, s: State, x: u32)
    requires Inv(c, s) && Enabled(c, s, WriteLogBlock) && x in Todo(s)
    ensures Kept(s, Do(c, s, WriteLogBlock), x)
  {
    var i := s.phase.i;
    LogWriteKeeps(c, s, LogSector(c.g, i), View(s, Home(c.g, s.lh[i])), WritingLog(i + 1), x);
  }

  lemma HeadTodo(s: State)
    requires s.phase.WritingLog?
    ensures Todo(s.(phase := Installing(0, false))) == Todo(s)
  {
    assert s.lh[0..] == s.lh;
  }

  lemma HeadKeeps(c: Config, s: State, x: u32)
    requires Inv(c, s) && Enabled(c, s, WriteHead) && x in Todo(s)
    ensures Kept(s, Do(c, s, WriteHead), x)
  {
    var y := HeadSector(c.g);
    HeadTodo(s);
    LogWriteKeeps(c, s, y, HeadBlock(View(s, y), s.lh), Installing(0, false), x);
  }

  ghost predicate Installs(s: State, st: Step, x: u32) {
    st.InstallBlock? && s.phase.Installing? && s.phase.i < |s.lh| && x == s.lh[s.phase.i]
  }

  lemma LoggedStep(c: Config, s: State, st: Step, x: u32, t: State)
    requires Inv(c, s) && Enabled(c, s, st) && x in Todo(s) && !st.Crash? && t == Do(c, s, st)
    ensures !Installs(s, st, x) ==> Kept(s, t, x)
    ensures Installs(s, st, x) ==> x !in Todo(t) && x < |t.disk| && t.disk[x] == View(s, x)
  {
    if st.InstallBlock? {
      InstallKeeps(c, s, x, t);
    } else if st.WriteLogBlock? {
      LogBlockKeeps(c, s, x);
    } else if st.WriteHead? {
      HeadKeeps(c, s, x);
    } else if st.Fill? || st.Evict? || st.Hold? || st.Modify? || st.Record? || st.Release? {
      BufferKeeps(c, s, st, x);
    } else if st.Begin? || st.Check? || st.End? {
      CountKeeps(c, s, st, x);
    } else {
      NoneLeft(c, s, st);
    }
  }

  /** The write-ahead rule, at every step of every run but a crash: from log_write until its
      installation a logged block stays in the cache and its home sector is not written; what is then
      installed is what bread showed. */
  lemma WriteAhead(c: Config, ss: seq<State>, sts: seq<Step>, k: nat, x: u32)
    requires ConfigOk(c) && Run(c, ss, sts) && k < |sts| && x in Todo(ss[k]) && !sts[k].Crash?
    ensures !Installs(ss[k], sts[k], x) ==> Kept(ss[k], ss[k + 1], x)
    ensures Installs(ss[k], sts[k], x) ==>
              x !in Todo(ss[k + 1]) && x < |ss[k].disk| == |ss[k + 1].disk| && ss[k + 1].disk[x] == View(ss[k], x)
  {
    RunInv(c, ss, sts, k);
    LoggedStep(c, ss[k], sts[k], x, ss[k + 1]);
  }
}
