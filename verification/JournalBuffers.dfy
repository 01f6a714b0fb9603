/** The journal's buffers: there are NBUF, as many as LOGSIZE, and commit pins one for each recorded
    block while processes go on holding others. Exactly which machines come to a bread, commit's own or
    a process's, for which bget has no buffer. */
module JournalBuffers {
  import opened Bytes
  import opened Device
  import opened Limits
  import opened Sets
  import opened Redo
  import opened Journal
  import opened JournalInv
  import opened JournalRun
  import opened JournalPanic

  // The log sector that commit reads next, or holds between that bread and its brelse. (While it writes a
  // recorded block home it holds that buffer instead, which is one pin less.)
  predicate Needs(c: Config, s: State, x: nat) {
    match s.phase
    case WritingLog(i) => x == if i < |s.lh| then LogSector(c.g, i) else HeadSector(c.g)
    case Installing(i, boot) => !boot && i < |s.lh| && x == LogSector(c.g, i)
    case Clearing(boot) => !boot && x == HeadSector(c.g)
    case _ => false
  }

  // Commit's bread panics in bget. Its other bread, of a recorded block, finds the pinned buffer.
  ghost predicate Stuck(c: Config, s: State, x: nat) {
    Needs(c, s, x) && NoBuffer(s, x)
  }

  ghost predicate SomeStuck(c: Config, h: nat) {
    exists s, x :: Reaches(c, h, s) && Stuck(c, s, x)
  }

  // A process that may hold one more buffer has its bread of block x panic in bget, while commit may be
  // holding the buffer it needs.
  ghost predicate Starved(c: Config, h: nat, s: State, x: nat) {
    && !Recovering(s.phase) && |Held(s)| < h
    && x < |s.disk| && !InLog(c.g, x) && x !in s.cache && |s.cache.Keys| >= NBUF
    && forall y | y in s.cache :: s.cache[y].dirty || s.cache[y].holder.Some? || Needs(c, s, y)
  }

  ghost predicate SomeStarved(c: Config, h: nat) {
    exists s, x :: Reaches(c, h, s) && Starved(c, h, s, x)
  }

  // Blocks get recorded at all.
  predicate Logs(c: Config, h: nat) {
    h > 0 && c.procs > 0 && c.g.cap > 0
  }

  // The most blocks pinned at once.
  function Most(c: Config, h: nat): nat {
    if Logs(c, h) then (if Peak(c) < c.g.cap then Peak(c) else c.g.cap) else 0
  }

  // ---------- no more than so many ----------

  ghost predicate Nothing(s: State) {
    Recovering(s.phase) || (s.lh == [] && (s.phase.Normal? || s.phase.Finishing?))
  }

  lemma NothingStep(c: Config, h: nat, s: State, st: Step)
    requires !Logs(c, h) && Inv(c, s) && Enabled(c, s, st) && Nothing(s) && |Held(s)| <= h
    ensures Nothing(Do(c, s, st))
  {
    if st.Record? {
      StepInv(c, s, st);
      assert st.x in Held(s);
    }
  }

  lemma {:induction false} NothingYet(c: Config, h: nat, ss: seq<State>, sts: seq<Step>, k: nat)
    requires ConfigOk(c) && Run(c, ss, sts) && k < |ss| && !Logs(c, h)
    requires forall i | 0 <= i < |ss| :: |Held(ss[i])| <= h
    ensures Nothing(ss[k])
  {
    if k > 0 {
      NothingYet(c, h, ss, sts, k - 1);
      RunInv(c, ss, sts, k - 1);
      NothingStep(c, h, ss[k - 1], sts[k - 1]);
    }
  }

  lemma AtMost(c: Config, h: nat, s: State)
    requires ConfigOk(c) && Reaches(c, h, s)
    ensures Inv(c, s) && |Held(s)| <= h
    ensures !Recovering(s.phase) ==> |Todo(s)| <= |s.lh| <= Most(c, h)
    ensures !Recovering(s.phase) && !Logs(c, h) ==> forall x :: !Needs(c, s, x)
  {
    ReachesIs(c, h, s);
    ReachBooks(c, s);
    if !Logs(c, h) {
      var ss: seq<State>, sts :| Run(c, ss, sts) && ss[|sts|] == s && forall i | 0 <= i < |ss| :: |Held(ss[i])| <= h;
      NothingYet(c, h, ss, sts, |sts|);
    }
  }

  lemma {:induction false} Listed(keys: set<nat>, lh: seq<u32>)
    requires forall x | x in keys :: x in lh
    ensures |keys| <= |lh|
    decreases |lh|
  {
    if lh == [] {
      assert keys == {};
    } else {
      var m := |lh| - 1;
      forall x | x in keys - {lh[m]}
        ensures x in lh[..m]
      {
        var i :| 0 <= i < |lh| && lh[i] == x;
      }
      Listed(keys - {lh[m]}, lh[..m]);
    }
  }

  // Every buffer is pinned, held, or that of sector e.
  lemma Crowded(s: State, e: set<nat>)
    requires forall x | x in s.cache && s.cache[x].dirty :: x in Todo(s)
    requires forall x | x in s.cache :: s.cache[x].dirty || s.cache[x].holder.Some? || x in e
    ensures |s.cache.Keys| <= |Todo(s)| + |Held(s)| + |e|
  {
    var dirty := set x | x in s.cache && s.cache[x].dirty;
    Listed(dirty, Todo(s));
    var all := dirty + Held(s) + e;
    assert s.cache.Keys <= all;
    Subset(s.cache.Keys, all);
    assert |dirty + Held(s)| <= |dirty| + |Held(s)|;
  }

  lemma StuckAt(c: Config, h: nat, s: State, x: nat)
    requires ConfigOk(c) && Reaches(c, h, s) && Stuck(c, s, x)
    ensures Logs(c, h) && Most(c, h) + h >= NBUF
  {
    AtMost(c, h, s);
    Crowded(s, {});
  }

  lemma StarvedAt(c: Config, h: nat, s: State, x: nat)
    requires ConfigOk(c) && Reaches(c, h, s) && Starved(c, h, s, x)
    ensures if Logs(c, h) then Most(c, h) + h >= NBUF else h > NBUF
  {
    AtMost(c, h, s);
    if y :| Needs(c, s, y) {
      Crowded(s, {y});
    } else {
      Crowded(s, {});
    }
  }

  // ---------- and as many ----------

  lemma {:induction false} Spots(c: Config, lh: seq<u32>, k: nat)
    requires k <= |lh| && forall i | 0 <= i < |lh| :: lh[i] == Spot(c, i)
    ensures NoneTwice(lh[..k])
  {
    if k > 0 {
      Spots(c, lh, k - 1);
      assert lh[..k][..k - 1] == lh[..k - 1];
    }
  }

  // Only the logged blocks are cached.
  lemma MidCache(c: Config, s: State, k: nat, b0: nat, b1: nat)
    requires Mid(c, s, k, b0, b1)
    ensures forall x | x in s.cache :: x in s.lh
  {
    forall x | x in s.cache
      ensures x in s.lh
    {
      if x !in s.lh {
        assert s.lh[..k] == s.lh;
        Spots(c, s.lh, k);
        Outnumbered(s.lh, s.cache.Keys, x);
      }
    }
  }

  lemma MidOutside(c: Config, s: State, k: nat, b0: nat, b1: nat)
    requires Wide(c) && Mid(c, s, k, b0, b1) && k <= LOGSIZE
    ensures forall x | x in s.cache :: !InLog(c.g, x)
    ensures forall j: nat | k <= j :: Spot(c, j) !in s.cache
  {
    MidCache(c, s, k, b0, b1);
  }

  // Process 0 reads a block and keeps it.
  lemma Reader(c: Config, h: nat, s: State, x: nat) returns (t: State)
    requires Reaches(c, h, s) && !Recovering(s.phase) && x < |s.disk| && x !in s.cache
    requires |s.cache.Keys| < NBUF && |Held(s)| < h
    ensures Reaches(c, h, t) && t == s.(cache := s.cache[x := Buf(s.disk[x], false, Some(0), false)])
    ensures |t.cache.Keys| == |s.cache.Keys| + 1 && |Held(t)| == |Held(s)| + 1
  {
    hide Reaches, Held;
    var v := Onward(c, h, s, Fill(x));
    OneMore(s, v, x);
    t := Onward(c, h, v, Hold(0, x));
    OneMore(s, t, x);
  }

  lemma OneMore(s: State, t: State, x: nat)
    requires x !in s.cache && x in t.cache && t.cache == s.cache[x := t.cache[x]]
    ensures |t.cache.Keys| == |s.cache.Keys| + 1
    ensures |Held(t)| == |Held(s)| + (if t.cache[x].holder.Some? then 1 else 0)
  {
    assert t.cache.Keys == s.cache.Keys + {x};
    assert Held(t) == if t.cache[x].holder.Some? then Held(s) + {x} else Held(s);
  }

  // Process 0 reads and keeps the blocks from j on, m of them.
  lemma {:induction false} Readers(c: Config, h: nat, s: State, j: nat, m: nat) returns (t: State)
    requires Wide(c) && Reaches(c, h, s) && !Recovering(s.phase) && |s.disk| == c.sectors && j + m <= LOGSIZE
    requires (forall i | j <= i < j + m :: Spot(c, i) !in s.cache) && |s.cache.Keys| + m <= NBUF && |Held(s)| + m <= h
    ensures Reaches(c, h, t) && t == s.(cache := t.cache)
    ensures |t.cache.Keys| == |s.cache.Keys| + m && |Held(t)| <= |Held(s)| + m
    ensures forall x | x in t.cache && x in s.cache :: t.cache[x] == s.cache[x]
    ensures forall x | x in t.cache && x !in s.cache :: !InLog(c.g, x) && t.cache[x].holder.Some? && !t.cache[x].changed
    ensures forall i: nat | j + m <= i && Spot(c, i) !in s.cache :: Spot(c, i) !in t.cache
    decreases m
  {
    hide Reaches, Held;
    if m == 0 {
      t := s;
    } else {
      var u := Readers(c, h, s, j, m - 1);
      var x := Spot(c, j + m - 1);
      SpotOutside(c, j + m - 1);
      t := Reader(c, h, u, x);
    }
  }

  // Every operation ends, and commit begins.
  lemma Commits(c: Config, h: nat, s: State, b0: nat, b1: nat) returns (t: State)
    requires Reaches(c, h, s) && c.procs > 0 && |s.ops| == c.procs && s.phase == Normal && s.lh != []
    requires s.outstanding == (if c.procs <= 1 then 1 else 2)
    requires OpenWith(s.ops[0], b0) && (c.procs > 1 ==> OpenWith(s.ops[1], b1))
    requires forall x | x in s.cache :: !s.cache[x].changed
    ensures Reaches(c, h, t)
    ensures t == s.(ops := t.ops, outstanding := 0, committing := true, phase := WritingLog(0))
  {
    hide Reaches;
    t := s;
    if c.procs > 1 {
      t := Onward(c, h, t, End(1));
    }
    t := Onward(c, h, t, End(0));
  }

  // The log is as full as it gets, and m more blocks are held.
  lemma FullAndHeld(c: Config, h: nat, m: nat) returns (t: State)
    requires Wide(c) && Logs(c, h) && Most(c, h) + m <= NBUF && m <= h
    ensures Reaches(c, h, t) && t.phase == WritingLog(0) && |t.disk| == c.sectors && |t.lh| == Most(c, h) > 0
    ensures |t.cache.Keys| == Most(c, h) + m && |Held(t)| <= m
    ensures forall x | x in t.cache :: !InLog(c.g, x) && (t.cache[x].dirty || t.cache[x].holder.Some?)
    ensures forall i: nat | Most(c, h) + m <= i :: Spot(c, i) !in t.cache
  {
    hide Reaches;
    var k := Most(c, h);
    var b0, b1 := Left(c, k, 0), Left(c, k, 1);
    var s := LogMany(c, h, k);
    MidOutside(c, s, k, b0, b1);
    assert Held(s) == {};
    var u := Readers(c, h, s, k, m);
    t := Commits(c, h, u, b0, b1);
    assert Held(t) == Held(u);
  }

  lemma StuckRun(c: Config, h: nat) returns (s: State)
    requires Wide(c) && Logs(c, h) && Most(c, h) <= NBUF <= Most(c, h) + h
    ensures Reaches(c, h, s) && Stuck(c, s, LogSector(c.g, 0))
  {
    s := FullAndHeld(c, h, NBUF - Most(c, h));
    assert InLog(c.g, LogSector(c.g, 0));
  }

  /** bget takes no buffer that is pinned or held. So commit's bread finds none, in some run in which
      never more than h buffers are held by processes, exactly if the most that the log can pin and h
      make up all NBUF. */
  lemma StuckIff(c: Config, h: nat)
    requires ConfigOk(c) && Wide(c)
    ensures SomeStuck(c, h) <==> Logs(c, h) && Most(c, h) + h >= NBUF
  {
    if Logs(c, h) && Most(c, h) + h >= NBUF {
      var s := StuckRun(c, h);
    }
    if s, x :| Reaches(c, h, s) && Stuck(c, s, x) {
      StuckAt(c, h, s, x);
    }
  }

  // The buffer that commit uses is the last one.
  lemma LastTaken(c: Config, h: nat) returns (s: State)
    requires Wide(c) && Logs(c, h) && Most(c, h) < NBUF <= Most(c, h) + h
    ensures Reaches(c, h, s) && Starved(c, h, s, Spot(c, NBUF - 1))
  {
    hide Reaches;
    var x := LogSector(c.g, 0);
    var t := FullAndHeld(c, h, NBUF - 1 - Most(c, h));
    assert InLog(c.g, x);
    s := Onward(c, h, t, Fill(x));
    assert Held(s) == Held(t) && s.cache.Keys == t.cache.Keys + {x};
    SpotOutside(c, NBUF - 1);
  }

  // All are pinned.
  lemma AllPinned(c: Config, h: nat) returns (s: State)
    requires Wide(c) && c.sectors > c.g.cap + 1 + LOGSIZE && Logs(c, h) && Most(c, h) == NBUF
    ensures Reaches(c, h, s) && Starved(c, h, s, Spot(c, NBUF))
  {
    s := LogMany(c, h, NBUF);
    MidOutside(c, s, NBUF, Left(c, NBUF, 0), Left(c, NBUF, 1));
    assert Held(s) == {};
  }

  // All are held.
  lemma AllHeld(c: Config, h: nat) returns (s: State)
    requires Wide(c) && c.sectors > c.g.cap + 1 + LOGSIZE && h > NBUF
    ensures Reaches(c, h, s) && Starved(c, h, s, Spot(c, NBUF))
  {
    var b := BootRun(c, h);
    assert Held(b) == {};
    s := Readers(c, h, b, 0, NBUF);
  }

  /** A process that may hold one buffer more finds none, in some run in which never more than h are
      held, exactly on the same machines; and if nothing is ever logged, if h is more than NBUF. */
  lemma StarvedIff(c: Config, h: nat)
    requires ConfigOk(c) && Wide(c) && c.sectors > c.g.cap + 1 + LOGSIZE
    ensures SomeStarved(c, h) <==> if Logs(c, h) then Most(c, h) + h >= NBUF else h > NBUF
  {
    if Logs(c, h) && Most(c, h) + h >= NBUF {
      if Most(c, h) < NBUF {
        var s := LastTaken(c, h);
      } else {
        var s := AllPinned(c, h);
      }
    }
    if !Logs(c, h) && h > NBUF {
      var s := AllHeld(c, h);
    }
    if s, x :| Reaches(c, h, s) && Starved(c, h, s, x) {
      StarvedAt(c, h, s, x);
    }
  }

  /** With the log mkfs makes, of LOGSIZE blocks, and at least two processes: operations that add at
      most MAXOPBLOCKS - 1 blocks each never panic in log_write and never outgrow the log, and
      MAXOPBLOCKS is one too many. Every bread then finds a buffer exactly if the buffers that
      processes hold at once leave it one besides those pinned. */
  lemma MkfsLog(c: Config, h: nat)
    requires Wide(c) && RecordReaches(c.g) && c.size == LOGSIZE && c.procs >= 2
    ensures ConfigOk(c) <==> c.share < MAXOPBLOCKS
    ensures SomePanic(c) <==> c.share == MAXOPBLOCKS
    ensures SomeOverrun(c) <==> c.share == MAXOPBLOCKS
    ensures ConfigOk(c) ==> (SomeStuck(c, h) <==> h > 0 && MAXOPBLOCKS + 2 * c.share + h >= NBUF)
    ensures ConfigOk(c) && c.sectors > c.g.cap + 1 + LOGSIZE ==> (SomeStarved(c, h) <==> SomeStuck(c, h))
  {
    PanicIff(c);
    OverrunIff(c);
    if ConfigOk(c) {
      StuckIff(c, h);
      if c.sectors > c.g.cap + 1 + LOGSIZE {
        StarvedIff(c, h);
      }
    }
  }
}
