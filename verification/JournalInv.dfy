/** Every step of the journal keeps its invariant. */
module JournalInv {
  import opened Bytes
  import opened Device
  import opened Limits
  import opened Redo
  import opened Journal
  import opened JournalBooks

  lemma InitInv(c: Config, s: State)
    requires Init(c, s) && ConfigOk(c)
    ensures Inv(c, s)
  {
    AllIdle(c.procs);
    assert Entries(s.disk[HeadSector(c.g)]) == [];
  }

  // ---------- steps of operations ----------

  // Steps that touch neither the device nor the buffers nor the recorded blocks.
  lemma CountStep(c: Config, s: State, t: State)
    requires Inv(c, s)
    requires |t.ops| == |s.ops| && t == s.(ops := t.ops, outstanding := t.outstanding, committing := t.committing, phase := t.phase)
    requires t.phase == s.phase || (s.phase.Normal? && t.phase == if s.lh == [] then Finishing else WritingLog(0))
    requires forall x | x in s.cache && s.cache[x].changed ::
               s.cache[x].holder.Some? && s.cache[x].holder.value < |t.ops| && t.ops[s.cache[x].holder.value].Open?
    ensures Core(c, t)
  {
    hide BooksOk, Placed, HeadOk, NoneTwice, Sane;
    assert Todo(t) == Todo(s);
    assert forall y: nat | y < |s.disk| :: View(t, y) == View(s, y);
  }

  lemma BeginInv(c: Config, s: State, p: nat)
    requires Inv(c, s) && Enabled(c, s, Begin(p))
    ensures Core(c, Do(c, s, Begin(p)))
  {
    CountStep(c, s, Do(c, s, Begin(p)));
  }

  lemma CheckInv(c: Config, s: State, p: nat, x: nat)
    requires Inv(c, s) && Enabled(c, s, Check(p, x))
    ensures Core(c, Do(c, s, Check(p, x)))
  {
    CountStep(c, s, Do(c, s, Check(p, x)));
  }

  lemma EndInv(c: Config, s: State, p: nat)
    requires Inv(c, s) && Enabled(c, s, End(p))
    ensures Core(c, Do(c, s, End(p)))
  {
    BudgetBound(s.ops, c.share);
    CountStep(c, s, Do(c, s, End(p)));
  }

  // ---------- steps of the cache ----------

  // What the device invariant says depends on the device and on what bread shows only.
  lemma DiskSame(c: Config, s: State, t: State)
    requires Shape(c, s) && DiskOk(c, s) && Shape(c, t)
    requires t.disk == s.disk && t.lh == s.lh && t.phase == s.phase
    requires forall y: nat | y < |s.disk| && y in s.lh :: View(t, y) == View(s, y)
    ensures DiskOk(c, t)
  {
    hide LogEmpty, HeadOk, Placed;
    RecordReachesIff(c.g);
    assert forall k | 0 <= k < |s.lh| :: s.lh[k] in s.lh && Home(c.g, s.lh[k]) == s.lh[k] < |s.disk| by { PlacedAt(c, s); }
  }

  lemma PlacedAt(c: Config, s: State)
    requires Shape(c, s)
    ensures forall k | 0 <= k < |s.lh| :: Home(c.g, s.lh[k]) < |s.disk|
  {
  }

  // A step of the cache that leaves the recorded blocks as bread shows them.
  lemma CacheStep(c: Config, s: State, t: State)
    requires Inv(c, s) && CacheOk(c, t)
    requires t == s.(cache := t.cache) && |t.cache.Keys| <= NBUF && forall x | x in t.cache :: x < |s.disk|
    requires forall y: nat | y < |s.disk| && y in s.lh :: View(t, y) == View(s, y)
    ensures Core(c, t)
  {
    hide CacheOk, DiskOk, Placed;
    DiskSame(c, s, t);
  }

  lemma FillInv(c: Config, s: State, x: nat)
    requires Inv(c, s) && Enabled(c, s, Fill(x))
    ensures Core(c, Do(c, s, Fill(x)))
  {
    hide Placed, DiskOk, BooksOk, Sane, CacheOk;
    FillCache(c, s, x);
    assert Do(c, s, Fill(x)).cache.Keys == s.cache.Keys + {x};
    CacheStep(c, s, Do(c, s, Fill(x)));
  }

  lemma FillCache(c: Config, s: State, x: nat)
    requires CacheOk(c, s) && Enabled(c, s, Fill(x))
    ensures CacheOk(c, Do(c, s, Fill(x)))
  {
    assert Todo(Do(c, s, Fill(x))) == Todo(s);
  }

  lemma EvictInv(c: Config, s: State, x: nat)
    requires Inv(c, s) && Enabled(c, s, Evict(x))
    ensures Core(c, Do(c, s, Evict(x)))
  {
    hide Placed, DiskOk;
    assert Do(c, s, Evict(x)).cache.Keys == s.cache.Keys - {x};
    CacheStep(c, s, Do(c, s, Evict(x)));
  }

  // A buffer passed from hand to hand.
  lemma HandOver(c: Config, s: State, x: nat, holder: Option<nat>, t: State)
    requires Inv(c, s) && x in s.cache && !s.cache[x].changed
    requires t == s.(cache := s.cache[x := s.cache[x].(holder := holder)])
    ensures Core(c, t)
  {
    hide Placed, DiskOk, BooksOk, CacheOk, Sane;
    HandCache(c, s, x, holder, t);
    assert t.cache.Keys == s.cache.Keys;
    CacheStep(c, s, t);
  }

  lemma HandCache(c: Config, s: State, x: nat, holder: Option<nat>, t: State)
    requires CacheOk(c, s) && x in s.cache && !s.cache[x].changed
    requires t == s.(cache := s.cache[x := s.cache[x].(holder := holder)])
    ensures CacheOk(c, t)
  {
    assert Todo(t) == Todo(s);
  }

  lemma HoldInv(c: Config, s: State, p: nat, x: nat)
    requires Inv(c, s) && Enabled(c, s, Hold(p, x))
    ensures Core(c, Do(c, s, Hold(p, x)))
  {
    assert s.cache[x].changed ==> s.cache[x].holder.Some?;
    HandOver(c, s, x, Some(p), Do(c, s, Hold(p, x)));
  }

  lemma ReleaseInv(c: Config, s: State, p: nat, x: nat)
    requires Inv(c, s) && Enabled(c, s, Release(p, x))
    ensures Core(c, Do(c, s, Release(p, x)))
  {
    HandOver(c, s, x, None, Do(c, s, Release(p, x)));
  }

  lemma ModifyInv(c: Config, s: State, p: nat, x: nat, v: Block)
    requires Inv(c, s) && Enabled(c, s, Modify(p, x, v))
    ensures Core(c, Do(c, s, Modify(p, x, v)))
  {
    BudgetBound(s.ops, c.share);
  }

  // Absorption: the block is already in the log.
  lemma AbsorbInv(c: Config, s: State, p: nat, x: nat)
    requires Inv(c, s) && Enabled(c, s, Record(p, x)) && x in s.lh
    ensures Core(c, Do(c, s, Record(p, x)))
  {
    OpenIsNormal(c, s, p);
    hide Placed, DiskOk, CacheOk, BooksOk, Sane;
    var t := Do(c, s, Record(p, x));
    var u := t.(ops := s.ops);
    AbsorbCache(c, s, x, u);
    assert u.cache.Keys == s.cache.Keys;
    CacheStep(c, s, u);
    RecordedOps(c, t, u);
  }

  lemma AbsorbCache(c: Config, s: State, x: nat, t: State)
    requires CacheOk(c, s) && s.phase.Normal? && x in s.lh && x in s.cache
    requires t == s.(cache := s.cache[x := s.cache[x].(dirty := true, changed := false)])
    ensures CacheOk(c, t)
  {
    assert Todo(t) == Todo(s);
  }

  // Nothing here depends on an open operation's books.
  lemma RecordedOps(c: Config, t: State, u: State)
    requires Core(c, u) && t == u.(ops := t.ops) && |t.ops| == |u.ops|
    requires forall p | 0 <= p < |u.ops| :: u.ops[p].Open? ==> t.ops[p].Open?
    ensures Core(c, t)
  {
    OpsCache(c, t, u);
    hide CacheOk, DiskOk, Placed;
    DiskSame(c, u, t);
  }

  lemma OpsCache(c: Config, t: State, u: State)
    requires CacheOk(c, u) && t == u.(ops := t.ops) && |t.ops| == |u.ops|
    requires forall p | 0 <= p < |u.ops| :: u.ops[p].Open? ==> t.ops[p].Open?
    ensures CacheOk(c, t)
  {
    assert Todo(t) == Todo(u);
  }

  lemma AppendShape(c: Config, s: State, p: nat, x: nat)
    requires Inv(c, s) && Enabled(c, s, Record(p, x)) && x !in s.lh && BooksOk(c, Do(c, s, Record(p, x)))
    requires s.phase.Normal?
    ensures Shape(c, Do(c, s, Record(p, x)))
  {
    hide CacheOk, DiskOk, BuffersOk, OpOk, NoneTwice;
    RecordReachesIff(c.g);
    NoneTwiceMore(s.lh, x);
  }

  lemma AppendCache(c: Config, s: State, p: nat, x: nat)
    requires Inv(c, s) && Enabled(c, s, Record(p, x)) && x !in s.lh && s.phase.Normal?
    ensures CacheOk(c, Do(c, s, Record(p, x)))
  {
    var t := Do(c, s, Record(p, x));
    assert Todo(t) == Todo(s) + [x];
  }

  lemma RecordInv(c: Config, s: State, p: nat, x: nat)
    requires Inv(c, s) && Enabled(c, s, Record(p, x))
    ensures Core(c, Do(c, s, Record(p, x)))
  {
    if x in s.lh {
      AbsorbInv(c, s, p, x);
    } else {
      RecordBooks(c, s, p, x);
      AppendShape(c, s, p, x);
      AppendCache(c, s, p, x);
    }
  }

  // ---------- steps of commit and recovery ----------

  // A sector written through its buffer leaves that buffer clean and the others as they were.
  lemma WroteCache(c: Config, s: State, x: nat, v: Block, ph: Phase)
    requires CacheOk(c, s) && x < |s.disk|
    requires var t := Wrote(s, x, v, ph);
             x !in Todo(t) && forall y | y != x :: y in Todo(t) <==> y in Todo(s)
    ensures CacheOk(c, Wrote(s, x, v, ph))
  {
  }

  // No logged block lives in the log.
  lemma TodoOutside(c: Config, s: State, x: nat)
    requires Shape(c, s) && InLog(c.g, x)
    ensures x !in s.lh && x !in Todo(s)
  {
    RecordReachesIff(c.g);
    assert forall k | 0 <= k < |s.lh| :: Home(c.g, s.lh[k]) == s.lh[k];
  }

  // Log sectors are never dirty or being changed.
  lemma LogClean(c: Config, s: State, x: nat)
    requires Shape(c, s) && CacheOk(c, s) && InLog(c.g, x) && x < |s.disk|
    ensures View(s, x) == s.disk[x]
  {
    TodoOutside(c, s, x);
  }

  lemma LogBlockDisk(c: Config, s: State, i: nat, t: State)
    requires Shape(c, s) && DiskOk(c, s) && s.phase == WritingLog(i) && i < |s.lh|
    requires t == Wrote(s, LogSector(c.g, i), View(s, s.lh[i]), WritingLog(i + 1))
    ensures Shape(c, t) && DiskOk(c, t)
  {
    var x := LogSector(c.g, i);
    TodoOutside(c, s, x);
    forall k | 0 <= k < |s.lh|
      ensures View(t, s.lh[k]) == View(s, s.lh[k])
    {
      assert s.lh[k] in s.lh;
    }
  }

  lemma LogBlockCache(c: Config, s: State, i: nat, t: State)
    requires Shape(c, s) && CacheOk(c, s) && s.phase == WritingLog(i) && i < |s.lh|
    requires t == Wrote(s, LogSector(c.g, i), View(s, s.lh[i]), WritingLog(i + 1))
    ensures CacheOk(c, t)
  {
    TodoOutside(c, s, LogSector(c.g, i));
    WroteCache(c, s, LogSector(c.g, i), View(s, s.lh[i]), WritingLog(i + 1));
  }

  lemma {:induction false} Outnumbered(lh: seq<u32>, keys: set<nat>, x: nat)
    requires NoneTwice(lh) && x in keys && x !in lh && forall k | 0 <= k < |lh| :: lh[k] in keys
    ensures |lh| < |keys|
    decreases |lh|
  {
    if lh == [] {
      assert keys != {};
    } else {
      var m := |lh| - 1;
      Outnumbered(lh[..m], keys - {lh[m]}, x);
    }
  }

  // A buffer for a log sector besides all the pinned ones.
  lemma LogBlockBuffer(c: Config, s: State, x: nat)
    requires Shape(c, s) && CacheOk(c, s) && BuffersOk(s) && s.phase.WritingLog? && InLog(c.g, x) && x in s.cache
    ensures |s.lh| < NBUF
  {
    TodoOutside(c, s, x);
    assert Todo(s) == s.lh;
    assert forall k | 0 <= k < |s.lh| :: s.lh[k] in Todo(s);
    Outnumbered(s.lh, s.cache.Keys, x);
  }

  lemma SameKeys(s: State, x: nat, v: Block, ph: Phase)
    requires x in s.cache && x < |s.disk|
    ensures Wrote(s, x, v, ph).cache.Keys == s.cache.Keys
  {
  }

  lemma LogBlockWritten(c: Config, s: State, i: nat, t: State)
    requires Inv(c, s) && s.phase == WritingLog(i) && i < |s.lh| && s.lh[i] < |s.disk| && Loaded(s, LogSector(c.g, i))
    requires t == Wrote(s, LogSector(c.g, i), View(s, s.lh[i]), WritingLog(i + 1))
    ensures Core(c, t)
  {
    hide CacheOk, HeadOk, DiskOk, NoneTwice;
    LogBlockBuffer(c, s, LogSector(c.g, i));
    SameKeys(s, LogSector(c.g, i), View(s, s.lh[i]), WritingLog(i + 1));
    LogBlockCache(c, s, i, t);
    LogBlockDisk(c, s, i, t);
  }

  lemma WriteLogBlockInv(c: Config, s: State)
    requires Inv(c, s) && Enabled(c, s, WriteLogBlock)
    ensures Core(c, Do(c, s, WriteLogBlock))
  {
    hide CacheOk, DiskOk, BooksOk, Placed;
    RecordReachesIff(c.g);
    LogBlockWritten(c, s, s.phase.i, Do(c, s, WriteLogBlock));
  }

  lemma HeadWritten(c: Config, s: State, v: Block, t: State)
    requires Inv(c, s) && s.phase == WritingLog(|s.lh|) && Loaded(s, HeadSector(c.g))
    requires Word(v, 0) <= LOGSIZE && Entries(v) == s.lh
    requires t == Wrote(s, HeadSector(c.g), v, Installing(0, false))
    ensures Core(c, t)
  {
    hide BooksOk, NoneTwice, Sane, CacheOk;
    var x := HeadSector(c.g);
    TodoOutside(c, s, x);
    assert Todo(t) == Todo(s);
    WroteCache(c, s, x, v, Installing(0, false));
    SameKeys(s, x, v, Installing(0, false));
    RecordReachesIff(c.g);
    forall k | 0 <= k < |s.lh|
      ensures View(t, s.lh[k]) == View(s, s.lh[k])
    {
      assert s.lh[k] in s.lh;
    }
  }

  lemma WriteHeadInv(c: Config, s: State)
    requires Inv(c, s) && Enabled(c, s, WriteHead)
    ensures Core(c, Do(c, s, WriteHead))
  {
    var b := View(s, HeadSector(c.g));
    EntriesOfHead(b, s.lh);
    HeadWritten(c, s, HeadBlock(b, s.lh), Do(c, s, WriteHead));
  }

  lemma TodoStep(c: Config, s: State)
    requires Shape(c, s) && Enabled(c, s, InstallBlock)
    ensures var t := Do(c, s, InstallBlock);
            && (s.phase.boot ==> Todo(s) == Todo(t) == [])
            && (!s.phase.boot ==> Todo(s) == [s.lh[s.phase.i]] + Todo(t) && s.lh[s.phase.i] !in Todo(t))
  {
    NoneTwiceTail(s.lh, s.phase.i);
  }

  // Only the header sector matters to what the header says.
  lemma HeadSame(g: Geometry, d: Disk, e: Disk)
    requires HeadOk(g, d) && |e| == |d| && e[HeadSector(g)] == d[HeadSector(g)]
    ensures HeadOk(g, e)
  {
  }

  lemma InstallPlaces(c: Config, s: State)
    requires Shape(c, s) && Enabled(c, s, InstallBlock)
    ensures var x := s.lh[s.phase.i];
            && Home(c.g, x) == x && x < |s.disk| && !InLog(c.g, x) && HeadSector(c.g) < |s.disk|
            && (forall k | 0 <= k < |s.lh| :: InLog(c.g, LogSector(c.g, k)) && s.lh[k] < |s.disk| && (k != s.phase.i ==> s.lh[k] != x))
  {
    RecordReachesIff(c.g);
    var i := s.phase.i;
    assert !InLog(c.g, Home(c.g, s.lh[i]));
    forall k | 0 <= k < |s.lh| && k != i
      ensures s.lh[k] != s.lh[i]
    {
      NoRepeats(c.g, s.lh, |s.disk|, k, i);
    }
    assert forall k | 0 <= k < |s.lh| :: Home(c.g, s.lh[k]) == s.lh[k];
  }

  lemma InstallDisk(c: Config, s: State)
    requires Inv(c, s) && Enabled(c, s, InstallBlock)
    ensures Shape(c, Do(c, s, InstallBlock)) && DiskOk(c, Do(c, s, InstallBlock))
  {
    hide Placed, HeadOk, NoneTwice, BooksOk, CacheOk;
    var t := Do(c, s, InstallBlock);
    InstallPlaces(c, s);
    LogClean(c, s, LogSector(c.g, s.phase.i));
    HeadSame(c.g, s.disk, t.disk);
  }

  lemma InstallBlockInv(c: Config, s: State)
    requires Inv(c, s) && Enabled(c, s, InstallBlock)
    ensures Core(c, Do(c, s, InstallBlock))
  {
    hide CacheOk, HeadOk, Placed, BooksOk, NoneTwice, DiskOk;
    RecordReachesIff(c.g);
    TodoStep(c, s);
    WroteCache(c, s, s.lh[s.phase.i], View(s, LogSector(c.g, s.phase.i)), Installing(s.phase.i + 1, s.phase.boot));
    SameKeys(s, s.lh[s.phase.i], View(s, LogSector(c.g, s.phase.i)), Installing(s.phase.i + 1, s.phase.boot));
    InstallDisk(c, s);
  }

  lemma ClearInv(c: Config, s: State, st: Step)
    requires Inv(c, s) && Enabled(c, s, st) && (st.ClearCount? || st.Finish?)
    ensures Core(c, Do(c, s, st))
  {
  }

  lemma ClearHeadInv(c: Config, s: State)
    requires Inv(c, s) && Enabled(c, s, ClearHead)
    ensures Core(c, Do(c, s, ClearHead))
  {
    var x := HeadSector(c.g);
    WroteCache(c, s, x, HeadBlock(View(s, x), []), if s.phase.boot then Normal else Finishing);
    SameKeys(s, x, HeadBlock(View(s, x), []), if s.phase.boot then Normal else Finishing);
  }

  lemma CrashInv(c: Config, s: State)
    requires Inv(c, s)
    ensures Core(c, Do(c, s, Crash))
  {
    AllIdle(|s.ops|);
  }

  lemma ReadHeadInv(c: Config, s: State)
    requires Inv(c, s) && Enabled(c, s, ReadHead)
    ensures Core(c, Do(c, s, ReadHead))
  {
    BudgetBound(s.ops, c.share);
  }

  /** Every enabled step keeps the invariant. */
  lemma StepInv(c: Config, s: State, st: Step)
    requires Inv(c, s) && Enabled(c, s, st)
    ensures Inv(c, Do(c, s, st))
  {
    hide Do, Enabled;
    BooksStep(c, s, st);
    match st
    case Begin(p) => BeginInv(c, s, p);
    case Fill(x) => FillInv(c, s, x);
    case Evict(x) => EvictInv(c, s, x);
    case Hold(p, x) => HoldInv(c, s, p, x);
    case Modify(p, x, v) => ModifyInv(c, s, p, x, v);
    case Check(p, x) => CheckInv(c, s, p, x);
    case Record(p, x) => RecordInv(c, s, p, x);
    case Release(p, x) => ReleaseInv(c, s, p, x);
    case End(p) => EndInv(c, s, p);
    case WriteLogBlock => WriteLogBlockInv(c, s);
    case WriteHead => WriteHeadInv(c, s);
    case InstallBlock => InstallBlockInv(c, s);
    case ClearCount => ClearInv(c, s, st);
    case ClearHead => ClearHeadInv(c, s);
    case Finish => ClearInv(c, s, st);
    case Crash => CrashInv(c, s);
    case ReadHead => ReadHeadInv(c, s);
  }
}
