/** The journal's limits: begin_op reserves against LOGSIZE, log_write refuses at LOGSIZE and at
    log.size - 1 without holding the lock. Exactly which machines can panic in log_write or outgrow the
    log. */
module JournalPanic {
  import opened Bytes
  import opened Device
  import opened Limits
  import opened Sets
  import opened Redo
  import opened Journal
  import opened JournalBooks
  import opened JournalRun

  // ---------- a run that fills the log ----------

  // The j-th sector outside the log.
  function Spot(c: Config, j: nat): nat {
    if j < HeadSector(c.g) then j else j + c.g.cap + 1
  }

  // Room for LOGSIZE blocks besides the log.
  ghost predicate Wide(c: Config) {
    Sane(c) && c.sectors >= c.g.cap + 1 + LOGSIZE
  }

  // What process p may still add when k blocks are logged. Process 1 logs MAXOPBLOCKS blocks in
  // operations of one block each; then 1 and 0 log all but one of their shares, then the last ones.
  function Left(c: Config, k: nat, p: nat): nat
    requires 1 <= c.share && k <= Peak(c)
  {
    var h, j := c.share - 1, k - MAXOPBLOCKS;
    if c.procs <= 1 then c.share - k
    else if j <= 0 then c.share
    else if p == 1 then (if j <= h then c.share - j else if j <= 2 * h then 1 else 0)
    else (if j <= h then c.share else if j <= 2 * h then c.share - (j - h) else if j == 2 * h + 1 then 1 else 0)
  }

  // Which process adds block k.
  function Next(c: Config, k: nat): nat
    requires 1 <= c.share
  {
    var h, j := c.share - 1, k - MAXOPBLOCKS;
    if c.procs <= 1 then 0 else if j < h then 1 else if j < 2 * h then 0 else if j == 2 * h then 1 else 0
  }

  ghost predicate OpenWith(o: Op, b: nat) {
    o.Open? && o.budget == b && o.call == None
  }

  // k blocks are logged, pinned and released; processes 0 and 1 may add b0 and b1 more.
  ghost predicate Mid(c: Config, s: State, k: nat, b0: nat, b1: nat) {
    && |s.disk| == c.sectors && |s.ops| == c.procs && s.phase == Normal && !s.committing
    && s.outstanding == (if c.procs <= 1 then 1 else 2)
    && c.procs > 0 && OpenWith(s.ops[0], b0) && (c.procs > 1 ==> OpenWith(s.ops[1], b1))
    && |s.lh| == k && (forall i | 0 <= i < k :: s.lh[i] == Spot(c, i) && s.lh[i] in s.cache)
    && |s.cache.Keys| == k
    && (forall x | x in s.cache :: s.cache[x].dirty && s.cache[x].holder == None && !s.cache[x].changed)
    && (forall j: nat | k <= j < LOGSIZE :: Spot(c, j) !in s.cache)
  }

  // Some run ends in s.
  ghost predicate Reach(c: Config, s: State) {
    exists ss: seq<State>, sts :: Run(c, ss, sts) && ss[|sts|] == s
  }

  // The buffers that processes hold.
  ghost function Held(s: State): set<nat> {
    set x | x in s.cache && s.cache[x].holder.Some?
  }

  // Some run ends in s, and never are more than h buffers held.
  ghost predicate Reaches(c: Config, h: nat, s: State) {
    exists ss: seq<State>, sts ::
      Run(c, ss, sts) && ss[|sts|] == s && forall i | 0 <= i < |ss| :: |Held(ss[i])| <= h
  }

  lemma ReachesIs(c: Config, h: nat, s: State)
    requires Reaches(c, h, s)
    ensures Reach(c, s) && |Held(s)| <= h
  {
    var ss: seq<State>, sts :| Run(c, ss, sts) && ss[|sts|] == s && forall i | 0 <= i < |ss| :: |Held(ss[i])| <= h;
  }

  // Only one step makes more of them.
  lemma HeldAfter(c: Config, s: State, st: Step)
    requires Enabled(c, s, st)
    ensures |Held(Do(c, s, st))| <= if st.Hold? then |Held(s)| + 1 else |Held(s)|
  {
    var t := Do(c, s, st);
    if st.Hold? {
      assert Held(t) == Held(s) + {st.x};
    } else {
      assert Held(t) <= Held(s);
      Subset(Held(t), Held(s));
    }
  }

  lemma Onward(c: Config, h: nat, s: State, st: Step) returns (t: State)
    requires Reaches(c, h, s) && Enabled(c, s, st) && (st.Hold? ==> |Held(s)| < h)
    ensures Reaches(c, h, t) && t == Do(c, s, st)
  {
    hide Enabled, Do, Held, Init;
    var ss: seq<State>, sts :| Run(c, ss, sts) && ss[|sts|] == s && forall i | 0 <= i < |ss| :: |Held(ss[i])| <= h;
    t := Do(c, s, st);
    HeldAfter(c, s, st);
    assert |Held(ss[|sts|])| <= h;
    Longer(c, ss, sts, st);
    assert (ss + [t])[|sts + [st]|] == t;
  }

  lemma ReachBooks(c: Config, s: State)
    requires Reach(c, s)
    ensures BooksOk(c, s) && (ConfigOk(c) ==> Inv(c, s))
  {
    var ss: seq<State>, sts :| Run(c, ss, sts) && ss[|sts|] == s;
    RunBooks(c, ss, sts, |sts|);
    if ConfigOk(c) {
      RunInv(c, ss, sts, |sts|);
    }
  }

  lemma EmptyDisk(c: Config) returns (s: State)
    requires Sane(c)
    ensures Init(c, s)
  {
    var d: Disk := seq(c.sectors, _ => ZeroBlock());
    s := State(d, map[], seq(c.procs, _ => Idle), 0, false, [], Booting);
    assert d[HeadSector(c.g)] == ZeroBlock();
  }

  ghost predicate Booted(c: Config, s: State) {
    && |s.disk| == c.sectors && |s.ops| == c.procs && s.phase == Normal && !s.committing && s.outstanding == 0
    && s.lh == [] && s.cache == map[] && forall p | 0 <= p < c.procs :: s.ops[p] == Idle
  }

  // Boot with an empty log.
  lemma BootRun(c: Config, h: nat) returns (s: State)
    requires Sane(c)
    ensures Reaches(c, h, s) && Booted(c, s)
  {
    var d := EmptyDisk(c);
    assert Reaches(c, h, d) by {
      var sts: seq<Step> := [];
      assert Run(c, [d], sts) && [d][|sts|] == d;
    }
    s := BootSteps(c, h, d);
  }

  lemma BootSteps(c: Config, h: nat, d: State) returns (s: State)
    requires Init(c, d) && Reaches(c, h, d)
    ensures Reaches(c, h, s) && Booted(c, s)
  {
    hide Reaches;
    var x := HeadSector(c.g);
    s := Onward(c, h, d, Fill(x));
    assert View(s, x) == d.disk[x];
    s := Onward(c, h, s, ReadHead);
    s := Onward(c, h, s, ClearCount);
    s := Onward(c, h, s, ClearHead);
    s := Onward(c, h, s, Evict(x));
    assert s.cache == map[];
  }

  lemma FirstOpen(c: Config, h: nat) returns (s: State)
    requires Sane(c) && c.procs > 0
    ensures Reaches(c, h, s) && Mid(c, s, 0, c.share, c.share)
  {
    hide Reaches;
    s := BootRun(c, h);
    s := Onward(c, h, s, Begin(0));
    if c.procs > 1 {
      s := Onward(c, h, s, Begin(1));
    }
  }

  // As Mid, and process p holds the next block.
  ghost predicate Holding(c: Config, s: State, k: nat, b0: nat, b1: nat, p: nat) {
    && k < LOGSIZE && p < |s.ops| && HeldBy(s, p, Spot(c, k)) && !s.cache[Spot(c, k)].changed
    && Mid(c, s.(cache := s.cache - {Spot(c, k)}), k, b0, b1)
  }

  lemma ReadAnother(c: Config, h: nat, s: State, k: nat, b0: nat, b1: nat, p: nat) returns (t: State)
    requires Wide(c) && h > 0 && Reaches(c, h, s) && Mid(c, s, k, b0, b1) && k < LOGSIZE && p < c.procs
    ensures Reaches(c, h, t) && Holding(c, t, k, b0, b1, p)
  {
    hide Reaches;
    var x := Spot(c, k);
    t := Onward(c, h, s, Fill(x));
    assert Held(t) == {};
    t := Onward(c, h, t, Hold(p, x));
    assert t.cache - {x} == s.cache;
  }

  lemma SpotOutside(c: Config, k: nat)
    requires Wide(c) && k < LOGSIZE
    ensures !InLog(c.g, Spot(c, k)) && Spot(c, k) < c.sectors <= 0x1_0000_0000
  {
  }

  // Process p reads, logs and releases one more block.
  lemma LogBlock(c: Config, h: nat, s: State, k: nat, b0: nat, b1: nat, p: nat) returns (t: State)
    requires Wide(c) && h > 0 && Reaches(c, h, s) && Mid(c, s, k, b0, b1) && k < LOGSIZE && k < c.g.cap && p < c.procs
    requires (p == 0 && b0 > 0) || (p == 1 && b1 > 0)
    ensures Reaches(c, h, t)
    ensures Mid(c, t, k + 1, if p == 0 then b0 - 1 else b0, if p == 1 then b1 - 1 else b1)
  {
    hide Reaches, Holding, Mid;
    SpotOutside(c, k);
    var m := ReadAnother(c, h, s, k, b0, b1, p);
    t := LogHeld(c, h, m, k, b0, b1, p);
    LoggedMid(c, m, t, k, b0, b1, p);
  }

  lemma LogHeld(c: Config, h: nat, s: State, k: nat, b0: nat, b1: nat, p: nat) returns (t: State)
    requires Wide(c) && Reaches(c, h, s) && Holding(c, s, k, b0, b1, p) && k < c.g.cap && p < c.procs
    requires (p == 0 && b0 > 0) || (p == 1 && b1 > 0)
    ensures Reaches(c, h, t) && p < |s.ops| && s.ops[p].Open? && s.ops[p].budget > 0 && Spot(c, k) in s.cache
    ensures Spot(c, k) < 0x1_0000_0000 && Spot(c, k) !in s.lh && t == AfterLog(s, p, Spot(c, k))
  {
    hide Reaches, InLog;
    var x := Spot(c, k);
    SpotOutside(c, k);
    t := Onward(c, h, s, Check(p, x));
    t := Onward(c, h, t, Record(p, x));
    t := Onward(c, h, t, Release(p, x));
  }

  // Block x logged by p, and released.
  ghost function AfterLog(s: State, p: nat, x: nat): State
    requires p < |s.ops| && s.ops[p].Open? && s.ops[p].budget > 0 && x < 0x1_0000_0000 && x in s.cache
  {
    s.(lh := s.lh + [x], ops := s.ops[p := Logged(s.ops[p], x, true)], cache := s.cache[x := Buf(s.cache[x].data, true, None, false)])
  }

  lemma LoggedMid(c: Config, s: State, t: State, k: nat, b0: nat, b1: nat, p: nat)
    requires Holding(c, s, k, b0, b1, p) && ((p == 0 && b0 > 0) || (p == 1 && b1 > 0)) && p < c.procs
    requires s.ops[p].Open? && s.ops[p].budget > 0 && Spot(c, k) < 0x1_0000_0000 && Spot(c, k) !in s.lh
    requires t == AfterLog(s, p, Spot(c, k))
    ensures Mid(c, t, k + 1, if p == 0 then b0 - 1 else b0, if p == 1 then b1 - 1 else b1)
  {
    var x := Spot(c, k);
    assert t.cache.Keys == (s.cache - {x}).Keys + {x};
    assert forall y | y in t.cache && y != x :: y in s.cache - {x};
  }

  // While at most MAXOPBLOCKS blocks are logged, process 1 may end its operation and begin another.
  lemma Reopen(c: Config, h: nat, s: State, k: nat, b0: nat, b1: nat) returns (t: State)
    requires Wide(c) && Reaches(c, h, s) && Mid(c, s, k, b0, b1) && k <= MAXOPBLOCKS && c.procs > 1
    ensures Reaches(c, h, t) && Mid(c, t, k, b0, c.share)
  {
    hide Reaches;
    t := Onward(c, h, s, End(1));
    t := Onward(c, h, t, Begin(1));
  }

  lemma LeftNext(c: Config, k: nat)
    requires Sane(c) && c.procs > 0 && k < Peak(c)
    ensures var p := Next(c, k);
            && p < c.procs && k < LOGSIZE && Left(c, k, p) > 0
            && (c.procs > 1 && k < MAXOPBLOCKS ==> p == 1 && Left(c, k + 1, 1) == c.share && Left(c, k + 1, 0) == Left(c, k, 0))
            && (c.procs <= 1 || k >= MAXOPBLOCKS ==>
                  && Left(c, k + 1, 0) == (if p == 0 then Left(c, k, 0) - 1 else Left(c, k, 0))
                  && (c.procs > 1 ==> Left(c, k + 1, 1) == if p == 1 then Left(c, k, 1) - 1 else Left(c, k, 1)))
  {
  }

  // Which budget process 1 has does not matter if there is none.
  lemma NoProcessOne(c: Config, s: State, k: nat, b0: nat, b1: nat, b: nat)
    requires Mid(c, s, k, b0, b1) && c.procs <= 1
    ensures Mid(c, s, k, b0, b)
  {
  }

  lemma {:induction false} LogMany(c: Config, h: nat, k: nat) returns (s: State)
    requires Wide(c) && h > 0 && c.procs > 0 && k <= Peak(c) && k <= c.g.cap
    ensures Reaches(c, h, s) && Mid(c, s, k, Left(c, k, 0), Left(c, k, 1))
  {
    hide Reaches, Mid;
    if k == 0 {
      s := FirstOpen(c, h);
    } else {
      var j := k - 1;
      LeftNext(c, j);
      var p := Next(c, j);
      var b0, b1 := Left(c, j, 0), Left(c, j, 1);
      s := LogMany(c, h, j);
      s := LogBlock(c, h, s, j, b0, b1, p);
      if c.procs <= 1 {
        NoProcessOne(c, s, k, b0 - 1, b1, Left(c, k, 1));
      } else if j < MAXOPBLOCKS {
        s := Reopen(c, h, s, k, b0, b1 - 1);
      }
    }
  }

  // ---------- log_write's panics ----------

  // log_write called by process p on buffer x panics.
  ghost predicate Panics(c: Config, s: State, p: nat, x: nat) {
    MayLog(c, s, p, x) && s.ops[p].call == None && GuardFails(c, s)
  }

  ghost predicate SomePanic(c: Config) {
    exists s, p, x :: Reach(c, s) && Panics(c, s, p, x)
  }

  // The same for a block that is not yet in the log.
  ghost predicate SomeAppendPanics(c: Config) {
    exists s, p, x :: Reach(c, s) && Panics(c, s, p, x) && x !in s.lh
  }

  lemma PanicAt(c: Config, s: State, p: nat, x: nat)
    requires Reach(c, s) && Panics(c, s, p, x)
    ensures c.procs > 0 && |s.lh| <= Peak(c)
    ensures |s.lh| >= LOGSIZE || |s.lh| >= c.size - 1
    ensures x !in s.lh ==> c.size <= Peak(c) && |s.lh| < LOGSIZE
  {
    ReachBooks(c, s);
    BudgetBound(s.ops, c.share);
    OpenIsNormal(c, s, p);
  }

  /** An operation within its share meets a panic of log_write in some run exactly if the lesser of
      LOGSIZE and log.size - 1 is within the log's peak: logging again a block that is already in a
      full log panics too. */
  lemma PanicIff(c: Config)
    requires Wide(c)
    ensures SomePanic(c) <==> c.procs > 0 && (LOGSIZE <= Peak(c) || c.size - 1 <= Peak(c))
  {
    if c.procs > 0 && (LOGSIZE <= Peak(c) || c.size - 1 <= Peak(c)) {
      var n := if c.g.cap < LOGSIZE then c.g.cap else LOGSIZE;
      var s := LogMany(c, 1, n);
      if n == 0 {
        s := ReadAnother(c, 1, s, 0, Left(c, 0, 0), Left(c, 0, 1), 0);
      } else {
        assert s.lh[0] == Spot(c, 0) && Held(s) == {};
        s := Onward(c, 1, s, Hold(0, Spot(c, 0)));
      }
      SpotOutside(c, 0);
      ReachesIs(c, 1, s);
      assert Panics(c, s, 0, Spot(c, 0));
    }
    if s: State, p, x :| Reach(c, s) && Panics(c, s, p, x) {
      PanicAt(c, s, p, x);
    }
  }

  /** An operation within its share meets the panic with a block it has yet to add exactly if the log
      has no more blocks than the peak: begin_op's reservation is not against log.size. */
  lemma AppendPanicIff(c: Config)
    requires Wide(c)
    ensures SomeAppendPanics(c) <==> c.procs > 0 && c.size <= Peak(c)
  {
    if c.procs > 0 && c.size <= Peak(c) {
      var n := c.g.cap;
      var p := Next(c, n);
      var m := LogMany(c, 1, n);
      var s := ReadAnother(c, 1, m, n, Left(c, n, 0), Left(c, n, 1), p);
      SpotOutside(c, n);
      ReachesIs(c, 1, s);
      assert Spot(c, n) !in m.lh;
      assert Panics(c, s, p, Spot(c, n));
    }
    if s: State, p, x :| Reach(c, s) && Panics(c, s, p, x) && x !in s.lh {
      PanicAt(c, s, p, x);
    }
  }

  // ---------- the race around log_write's unlocked test ----------

  // More blocks are recorded than the log has sectors for.
  ghost predicate Overrun(c: Config, s: State) {
    !Recovering(s.phase) && s.lh != [] && |s.lh| >= c.size
  }

  ghost predicate SomeOverrun(c: Config) {
    exists s :: Reach(c, s) && Overrun(c, s)
  }

  // Processes 0 and 1 hold one block each that is not yet logged.
  ghost predicate BothHold(c: Config, s: State, k: nat, x: nat, y: nat) {
    && s.phase == Normal && |s.lh| == k && s.outstanding == 2 && |s.ops| > 1
    && s.ops[0].Open? && s.ops[0].budget > 0 && s.ops[0].call == None && HeldBy(s, 0, x)
    && s.ops[1].Open? && s.ops[1].budget > 0 && s.ops[1].call == None && HeldBy(s, 1, y)
    && x != y && x !in s.lh && y !in s.lh
    && !InLog(c.g, x) && x < 0x1_0000_0000 && !InLog(c.g, y) && y < 0x1_0000_0000
  }

  lemma ReadTwo(c: Config, h: nat, s: State, k: nat, b0: nat, b1: nat) returns (t: State)
    requires Wide(c) && h > 1 && Reaches(c, h, s) && Mid(c, s, k, b0, b1) && c.procs > 1 && k < LOGSIZE - 1 && b0 > 0 && b1 > 0
    ensures Reaches(c, h, t) && BothHold(c, t, k, Spot(c, k), Spot(c, k + 1))
  {
    hide Reaches, BothHold, Holding, Held, Mid, InLog;
    var y := Spot(c, k + 1);
    var m := ReadAnother(c, h, s, k, b0, b1, 0);
    SecondFree(c, m, k, b0, b1);
    t := Onward(c, h, m, Fill(y));
    t := Onward(c, h, t, Hold(1, y));
    TwoHeld(c, m, t, k, b0, b1);
  }

  // There is a buffer for the block after the one that process 0 holds.
  lemma SecondFree(c: Config, s: State, k: nat, b0: nat, b1: nat)
    requires Wide(c) && Holding(c, s, k, b0, b1, 0) && k < LOGSIZE - 1
    ensures Spot(c, k + 1) < |s.disk| && Spot(c, k + 1) !in s.cache && |s.cache.Keys| < NBUF && s.phase == Normal
    ensures var t := s.(cache := s.cache[Spot(c, k + 1) := Buf(s.disk[Spot(c, k + 1)], false, None, false)]);
            |Held(t)| < 2
  {
    hide InLog;
    var x, y := Spot(c, k), Spot(c, k + 1);
    SpotOutside(c, k + 1);
    assert y !in (s.cache - {x});
    assert s.cache.Keys == (s.cache - {x}).Keys + {x};
    var t := s.(cache := s.cache[y := Buf(s.disk[y], false, None, false)]);
    assert Held(t) == {x};
  }

  lemma TwoHeld(c: Config, s: State, t: State, k: nat, b0: nat, b1: nat)
    requires Wide(c) && Holding(c, s, k, b0, b1, 0) && c.procs > 1 && k < LOGSIZE - 1 && b0 > 0 && b1 > 0
    requires Spot(c, k + 1) < |s.disk|
    requires t == s.(cache := s.cache[Spot(c, k + 1) := Buf(s.disk[Spot(c, k + 1)], false, Some(1), false)])
    ensures BothHold(c, t, k, Spot(c, k), Spot(c, k + 1))
  {
    hide InLog;
    SpotOutside(c, k);
    SpotOutside(c, k + 1);
  }

  // With one block left, both pass the test and both append.
  lemma Race(c: Config, h: nat, s: State, k: nat, x: nat, y: nat) returns (t: State)
    requires Reaches(c, h, s) && BothHold(c, s, k, x, y) && k < c.g.cap && k < LOGSIZE && Sane(c)
    ensures Reaches(c, h, t) && |t.lh| == k + 2 && t.phase == Normal
  {
    hide Reaches, InLog;
    t := Onward(c, h, s, Check(0, x));
    t := Onward(c, h, t, Check(1, y));
    t := Onward(c, h, t, Record(0, x));
    t := Onward(c, h, t, Record(1, y));
  }

  /** log_write's test of log.size is made before the lock is taken. Two processes can both pass it
      and make the log outgrow its sectors, exactly if there are two processes and the log has at
      least two blocks but no more than the peak. The test against LOGSIZE needs no lock. */
  lemma OverrunIff(c: Config)
    requires Wide(c)
    ensures SomeOverrun(c) <==> !Fits(c)
  {
    if !Fits(c) {
      var n := c.size - 2;
      var s := LogMany(c, 2, n);
      s := ReadTwo(c, 2, s, n, Left(c, n, 0), Left(c, n, 1));
      s := Race(c, 2, s, n, Spot(c, n), Spot(c, n + 1));
      ReachesIs(c, 2, s);
      assert Overrun(c, s);
    }
    if s :| Reach(c, s) && Overrun(c, s) {
      ReachBooks(c, s);
    }
  }
}
