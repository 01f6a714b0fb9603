/** The log and the buffer cache as many processes see them: begin_op, bread, log_write, brelse,
    end_op, the steps of commit, and crashes and recovery, interleaved in every order. */
module Journal {
  import opened Bytes
  import opened Device
  import opened Limits
  import opened Redo

  // A valid cached sector: who holds its sleeplock, and whether it was changed since the
  // holder's last log_write.
  datatype Buf = Buf(data: Block, dirty: bool, holder: Option<nat>, changed: bool)

  // A process inside begin_op/end_op may still add budget blocks to the log; logging a block that
  // is there already is free. logged is history: the blocks of its log_write calls. call is the
  // buffer of the log_write it is in, between the tests at the top and the acquiring of log.lock.
  datatype Op = Idle | Open(budget: nat, logged: set<nat>, call: Option<nat>)

  // Where commit, or recovery at boot, has got to.
  datatype Phase =
    | Normal
    | WritingLog(i: nat)
    | Installing(i: nat, boot: bool)
    | Clearing(boot: bool)
    | Finishing
    | Booting

  // size is log.size; share is how many blocks one operation may add to the log.
  datatype Config = Config(g: Geometry, size: nat, procs: nat, sectors: nat, share: nat)

  datatype State = State(disk: Disk, cache: map<nat, Buf>, ops: seq<Op>, outstanding: int, committing: bool,
                         lh: seq<u32>, phase: Phase)

  datatype Step =
    | Begin(p: nat)
    | Fill(x: nat)
    | Evict(x: nat)
    | Hold(p: nat, x: nat)
    | Modify(p: nat, x: nat, v: Block)
    | Check(p: nat, x: nat)
    | Record(p: nat, x: nat)
    | Release(p: nat, x: nat)
    | End(p: nat)
    | WriteLogBlock
    | WriteHead
    | InstallBlock
    | ClearCount
    | ClearHead
    | Finish
    | Crash
    | ReadHead

  predicate Recovering(ph: Phase) {
    ph.Booting? || (ph.Installing? && ph.boot) || (ph.Clearing? && ph.boot)
  }

  // What bread shows of sector x.
  function View(s: State, x: nat): Block
    requires x < |s.disk|
  {
    if x in s.cache then s.cache[x].data else s.disk[x]
  }

  // What commit's and recovery's bread of sector x must find: bget has a buffer, nobody holds it.
  predicate Loaded(s: State, x: nat) {
    x < |s.disk| && x in s.cache && s.cache[x].holder == None
  }

  // bget's panic: x is not cached, and every buffer is held or dirty.
  ghost predicate NoBuffer(s: State, x: nat) {
    x !in s.cache && |s.cache.Keys| >= NBUF && forall y | y in s.cache :: s.cache[y].dirty || s.cache[y].holder.Some?
  }

  predicate HeldBy(s: State, p: nat, x: nat) {
    x in s.cache && s.cache[x].holder == Some(p)
  }

  // Process p is in an operation, holds buffer x, and may give it to log_write.
  predicate MayLog(c: Config, s: State, p: nat, x: nat) {
    && p < |s.ops| && s.ops[p].Open? && HeldBy(s, p, x) && !InLog(c.g, x) && x < 0x1_0000_0000
    && (x in s.lh || s.ops[p].budget > 0)
  }

  // log_write's two panics.
  predicate GuardFails(c: Config, s: State) {
    |s.lh| >= LOGSIZE || |s.lh| >= c.size - 1 || s.outstanding < 1
  }

  // ---------- the steps ----------

  ghost predicate Enabled(c: Config, s: State, st: Step) {
    match st
    case Begin(p) =>
      && p < |s.ops| && s.ops[p].Idle? && !Recovering(s.phase)
      && !s.committing && |s.lh| + (s.outstanding + 1) * MAXOPBLOCKS <= LOGSIZE
    case Fill(x) => x < |s.disk| && x !in s.cache && |s.cache.Keys| < NBUF
    case Evict(x) => x in s.cache && s.cache[x].holder == None && !s.cache[x].dirty
    case Hold(p, x) => x in s.cache && s.cache[x].holder == None && !Recovering(s.phase)
    case Modify(p, x, v) => p < |s.ops| && s.ops[p].Open? && HeldBy(s, p, x) && !InLog(c.g, x)
    case Check(p, x) => MayLog(c, s, p, x) && s.ops[p].call == None && !GuardFails(c, s)
    case Record(p, x) => MayLog(c, s, p, x) && s.ops[p].call == Some(x)
    case Release(p, x) => HeldBy(s, p, x) && !s.cache[x].changed
    case End(p) =>
      && p < |s.ops| && s.ops[p].Open? && s.ops[p].call == None
      && forall x | x in s.cache :: !(HeldBy(s, p, x) && s.cache[x].changed)
    case WriteLogBlock =>
      && s.phase.WritingLog? && s.phase.i < |s.lh|
      && Loaded(s, LogSector(c.g, s.phase.i)) && Loaded(s, Home(c.g, s.lh[s.phase.i]))
    case WriteHead => s.phase.WritingLog? && s.phase.i == |s.lh| <= LOGSIZE && Loaded(s, HeadSector(c.g))
    case InstallBlock =>
      && s.phase.Installing? && s.phase.i < |s.lh|
      && Loaded(s, LogSector(c.g, s.phase.i)) && Loaded(s, Home(c.g, s.lh[s.phase.i]))
    case ClearCount => s.phase.Installing? && s.phase.i == |s.lh|
    case ClearHead => s.phase.Clearing? && Loaded(s, HeadSector(c.g))
    case Finish => s.phase.Finishing?
    case Crash => true
    case ReadHead => s.phase.Booting? && Loaded(s, HeadSector(c.g)) && Word(View(s, HeadSector(c.g)), 0) <= LOGSIZE
  }

  // After log_write of block x, which is new to the log or absorbed.
  function Logged(o: Op, x: nat, added: bool): Op
    requires o.Open? && (added ==> o.budget > 0)
  {
    Open(if added then o.budget - 1 else o.budget, o.logged + {x}, None)
  }

  // bwrite of a buffer whose contents were set to v; the buffer is then clean and released.
  ghost function Wrote(s: State, x: nat, v: Block, ph: Phase): State
    requires x < |s.disk|
  {
    s.(disk := s.disk[x := v], cache := s.cache[x := Buf(v, false, None, false)], phase := ph)
  }

  ghost function Do(c: Config, s: State, st: Step): State
    requires Enabled(c, s, st)
  {
    match st
    case Begin(p) => s.(ops := s.ops[p := Open(c.share, {}, None)], outstanding := s.outstanding + 1)
    case Fill(x) => s.(cache := s.cache[x := Buf(s.disk[x], false, None, false)])
    case Evict(x) => s.(cache := s.cache - {x})
    case Hold(p, x) => s.(cache := s.cache[x := s.cache[x].(holder := Some(p))])
    case Modify(p, x, v) => s.(cache := s.cache[x := s.cache[x].(data := v, changed := true)])
    case Check(p, x) => s.(ops := s.ops[p := s.ops[p].(call := Some(x))])
    case Record(p, x) =>
      s.(lh := if x in s.lh then s.lh else s.lh + [x],
         cache := s.cache[x := s.cache[x].(dirty := true, changed := false)],
         ops := s.ops[p := Logged(s.ops[p], x, x !in s.lh)])
    case Release(p, x) => s.(cache := s.cache[x := s.cache[x].(holder := None)])
    case End(p) =>
      var e := s.(ops := s.ops[p := Idle], outstanding := s.outstanding - 1);
      if e.outstanding != 0 then e
      else e.(committing := true, phase := if s.lh == [] then Finishing else WritingLog(0))
    case WriteLogBlock =>
      Wrote(s, LogSector(c.g, s.phase.i), View(s, Home(c.g, s.lh[s.phase.i])), WritingLog(s.phase.i + 1))
    case WriteHead =>
      Wrote(s, HeadSector(c.g), HeadBlock(View(s, HeadSector(c.g)), s.lh), Installing(0, false))
    case InstallBlock =>
      Wrote(s, Home(c.g, s.lh[s.phase.i]), View(s, LogSector(c.g, s.phase.i)),
            Installing(s.phase.i + 1, s.phase.boot))
    case ClearCount => s.(lh := [], phase := Clearing(s.phase.boot))
    case ClearHead =>
      Wrote(s, HeadSector(c.g), HeadBlock(View(s, HeadSector(c.g)), []), if s.phase.boot then Normal else Finishing)
    case Finish => s.(committing := false, phase := Normal)
    case Crash =>
      State(s.disk, map[], seq(|s.ops|, _ => Idle), 0, false, [], Booting)
    case ReadHead => s.(lh := Entries(View(s, HeadSector(c.g))), phase := Installing(0, true))
  }

  ghost predicate Sane(c: Config) {
    && 1 <= c.share <= MAXOPBLOCKS
    && c.g.cap == (if c.size == 0 then 0 else c.size - 1)
    && Room(c.g, c.sectors) && c.sectors <= 0x1_0000_0000
  }

  // The machine is switched on with a device whose log is empty.
  ghost predicate Init(c: Config, s: State) {
    && Sane(c)
    && |s.disk| == c.sectors && LogEmpty(c.g, s.disk)
    && s == State(s.disk, map[], seq(c.procs, _ => Idle), 0, false, [], Booting)
  }

  ghost predicate Run(c: Config, ss: seq<State>, sts: seq<Step>) {
    && |ss| == |sts| + 1 && Init(c, ss[0])
    && forall i | 0 <= i < |sts| :: Enabled(c, ss[i], sts[i]) && ss[i + 1] == Do(c, ss[i], sts[i])
  }

  lemma Longer(c: Config, ss: seq<State>, sts: seq<Step>, st: Step)
    requires Run(c, ss, sts) && Enabled(c, ss[|sts|], st)
    ensures Run(c, ss + [Do(c, ss[|sts|], st)], sts + [st])
  {
    hide Enabled, Do, Init;
  }

  /** brelse undoes the acquiring of a buffer that has not been changed, and recycling a buffer its filling. */
  lemma Undone(c: Config, s: State, p: nat, x: nat)
    ensures Enabled(c, s, Hold(p, x)) && !s.cache[x].changed ==>
              var t := Do(c, s, Hold(p, x));
              HeldBy(t, p, x) && Enabled(c, t, Release(p, x)) && Do(c, t, Release(p, x)) == s
    ensures Enabled(c, s, Fill(x)) ==>
              var t := Do(c, s, Fill(x));
              View(t, x) == s.disk[x] && !HeldBy(t, p, x) && Enabled(c, t, Evict(x)) && Do(c, t, Evict(x)) == s
  {
    if Enabled(c, s, Hold(p, x)) && !s.cache[x].changed {
      var t := Do(c, s, Hold(p, x));
      assert Do(c, t, Release(p, x)).cache == s.cache;
    }
    if Enabled(c, s, Fill(x)) {
      var t := Do(c, s, Fill(x));
      assert Do(c, t, Evict(x)).cache == s.cache;
    }
  }

  // A recorded block number, given to bread, reaches the buffer it was recorded for.
  ghost predicate RecordReaches(g: Geometry) {
    forall r: nat :: Home(g, r) == r
  }

  // The most blocks the log can come to hold while an operation is open.
  function Peak(c: Config): nat {
    if c.procs <= 1 then c.share else MAXOPBLOCKS + 2 * c.share
  }

  // No other process gets between a process's test of log.size and its append.
  predicate Alone(c: Config) {
    c.procs <= 1 || c.size <= 1
  }

  // The log never outgrows its sectors.
  predicate Fits(c: Config) {
    Alone(c) || Peak(c) < c.size
  }

  ghost predicate ConfigOk(c: Config) {
    Sane(c) && RecordReaches(c.g) && Fits(c)
  }

  lemma RecordReachesIff(g: Geometry)
    ensures RecordReaches(g) <==> g.lba == 0
  {
    if RecordReaches(g) {
      assert Home(g, 0) == 0;
    }
  }

  // ---------- counting ----------

  function OpenCount(ops: seq<Op>): nat {
    if ops == [] then 0 else (if ops[0].Open? then 1 else 0) + OpenCount(ops[1..])
  }

  function Budget(ops: seq<Op>): nat {
    if ops == [] then 0 else (if ops[0].Open? then ops[0].budget else 0) + Budget(ops[1..])
  }

  lemma {:induction false} CountUpdate(ops: seq<Op>, p: nat, o: Op)
    requires p < |ops|
    ensures OpenCount(ops[p := o]) == OpenCount(ops) - (if ops[p].Open? then 1 else 0) + (if o.Open? then 1 else 0)
    ensures Budget(ops[p := o])
         == Budget(ops) - (if ops[p].Open? then ops[p].budget else 0) + (if o.Open? then o.budget else 0)
  {
    if p > 0 {
      CountUpdate(ops[1..], p - 1, o);
      assert ops[p := o][1..] == ops[1..][p - 1 := o];
    } else {
      assert ops[p := o][1..] == ops[1..];
    }
  }

  lemma {:induction false} BudgetBound(ops: seq<Op>, share: nat)
    requires forall p | 0 <= p < |ops| && ops[p].Open? :: ops[p].budget <= share
    ensures Budget(ops) <= share * OpenCount(ops)
    ensures OpenCount(ops) <= |ops|
    ensures OpenCount(ops) == 0 ==> forall p | 0 <= p < |ops| :: ops[p].Idle?
    ensures (exists p :: 0 <= p < |ops| && ops[p].Idle?) ==> OpenCount(ops) < |ops|
    ensures forall p | 0 <= p < |ops| && ops[p].Open? :: ops[p].budget <= Budget(ops) && 1 <= OpenCount(ops)
  {
    if ops != [] {
      BudgetBound(ops[1..], share);
      assert forall p | 1 <= p < |ops| :: ops[p] == ops[1..][p - 1];
    }
  }

  lemma {:induction false} AllIdle(n: nat)
    ensures OpenCount(seq(n, _ => Idle)) == 0 && Budget(seq(n, _ => Idle)) == 0
  {
    if n > 0 {
      AllIdle(n - 1);
      assert seq(n, _ => Idle)[1..] == seq(n - 1, _ => Idle);
    }
  }

  // ---------- the invariant ----------

  // The recorded blocks that commit has not yet installed.
  ghost function Todo(s: State): seq<u32> {
    match s.phase
    case Normal => s.lh
    case WritingLog(_) => s.lh
    case Installing(i, boot) => if boot || i > |s.lh| then [] else s.lh[i..]
    case _ => []
  }

  ghost predicate Shape(c: Config, s: State) {
    && ConfigOk(c) && |s.disk| == c.sectors && |s.ops| == c.procs
    && Placed(c.g, s.lh, |s.disk|)
    && forall x | x in s.cache :: x < |s.disk|
  }

  // There are NBUF buffers, and a commit that has written a block has one for the log's sectors.
  ghost predicate BuffersOk(s: State) {
    && |s.cache.Keys| <= NBUF
    && (s.phase.WritingLog? && s.phase.i > 0 ==> |s.lh| < NBUF)
    && (s.phase.Installing? && !s.phase.boot ==> |s.lh| < NBUF)
  }

  // Buffers are pinned exactly while they are recorded and not installed; an unpinned buffer
  // nobody is changing equals its sector; only an open operation changes a buffer.
  ghost predicate CacheOk(c: Config, s: State) {
    && (forall x | x in Todo(s) :: x in s.cache && s.cache[x].dirty)
    && (forall x | x in s.cache && s.cache[x].dirty :: x in Todo(s))
    && (forall x | x in s.cache && x < |s.disk| && !s.cache[x].dirty && !s.cache[x].changed ::
          s.cache[x].data == s.disk[x])
    && (forall x | x in s.cache && s.cache[x].changed ::
          && !InLog(c.g, x)
          && s.cache[x].holder.Some? && s.cache[x].holder.value < |s.ops|
          && s.ops[s.cache[x].holder.value].Open?)
  }

  ghost predicate OpOk(c: Config, lh: seq<u32>, o: Op) {
    o.Open? ==> o.budget <= c.share <= o.budget + |o.logged| && forall x | x in o.logged :: x in lh
  }

  // The reservation: recorded blocks and unused budgets.
  ghost predicate BooksOk(c: Config, s: State) {
    && |s.ops| == c.procs && s.outstanding == OpenCount(s.ops)
    && (forall p | 0 <= p < |s.ops| :: OpOk(c, s.lh, s.ops[p]))
    && (s.outstanding > 0 ==> |s.lh| + Budget(s.ops) <= Peak(c))
    && (!Recovering(s.phase) ==> |s.lh| <= Peak(c))
    && (Alone(c) && !Recovering(s.phase) ==>
          |s.lh| <= c.g.cap && forall p | 0 <= p < |s.ops| && s.ops[p].Open? && s.ops[p].call.Some? :: |s.lh| < c.g.cap)
    && (s.committing <==> !Recovering(s.phase) && !s.phase.Normal?)
    && (!s.phase.Normal? ==> s.outstanding == 0)
    && (s.phase.Normal? && s.outstanding == 0 ==> s.lh == [])
    && (s.phase.Clearing? || s.phase.Finishing? ==> s.lh == [])
  }

  ghost predicate DiskOk(c: Config, s: State)
    requires Shape(c, s)
  {
    match s.phase
    case Normal => LogEmpty(c.g, s.disk)
    case WritingLog(i) =>
      && LogEmpty(c.g, s.disk) && 0 < |s.lh| && i <= |s.lh|
      && forall k | 0 <= k < i :: s.disk[LogSector(c.g, k)] == View(s, s.lh[k])
    case Installing(i, boot) =>
      && i <= |s.lh|
      && HeadOk(c.g, s.disk) && Entries(s.disk[HeadSector(c.g)]) == s.lh
      && (forall k | 0 <= k < i :: s.disk[s.lh[k]] == s.disk[LogSector(c.g, k)])
      && (!boot ==> forall k | i <= k < |s.lh| :: View(s, s.lh[k]) == s.disk[LogSector(c.g, k)])
    case Clearing(_) =>
      && s.lh == [] && HeadOk(c.g, s.disk)
      && var e := Entries(s.disk[HeadSector(c.g)]);
         forall k | 0 <= k < |e| :: s.disk[e[k]] == s.disk[LogSector(c.g, k)]
    case Finishing => s.lh == [] && LogEmpty(c.g, s.disk)
    case Booting => s.lh == [] && HeadOk(c.g, s.disk)
  }

  ghost predicate Core(c: Config, s: State) {
    match c
    case Config(_, _, _, _, _) => Shape(c, s) && CacheOk(c, s) && BuffersOk(s) && DiskOk(c, s)
  }

  ghost predicate Inv(c: Config, s: State) {
    Core(c, s) && BooksOk(c, s)
  }
}
