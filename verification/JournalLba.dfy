/** What the journal's runs promise holds for LBA 0 and for no other: over all runs, recovery leaves what
    the last header write saved exactly if a recorded block number reaches its buffer. */
module JournalLba {
  import opened Bytes
  import opened Device
  import opened Limits
  import opened Redo
  import opened Journal
  import opened JournalRun

  // If the machine stops now, recovery leaves what the schedule's last header write saved.
  ghost predicate Survives(c: Config, s: State, r: Store) {
    HeadOk(c.g, s.disk) && SameHome(c.g, Recovered(c.g, s.disk), r.saved)
  }

  ghost predicate Replays(c: Config) {
    forall ss: seq<State>, sts, k | Run(c, ss, sts) && 0 <= k < |ss| :: Survives(c, ss[k], Replay(ss[0].disk, sts, k))
  }

  // Some run ends in s, and its schedule describes r.
  ghost predicate Leads(c: Config, s: State, r: Store) {
    exists ss: seq<State>, sts :: Run(c, ss, sts) && ss[|sts|] == s && Replay(ss[0].disk, sts, |sts|) == r
  }

  lemma {:induction false} ReplayPrefix(d: Disk, sts: seq<Step>, st: Step, k: nat)
    requires k <= |sts|
    ensures Replay(d, sts + [st], k) == Replay(d, sts, k)
  {
    if k > 0 {
      ReplayPrefix(d, sts, st, k - 1);
    }
  }

  lemma Further(c: Config, s: State, r: Store, st: Step) returns (t: State, q: Store)
    requires Leads(c, s, r) && Enabled(c, s, st)
    ensures t == Do(c, s, st) && q == Apply(r, st) && Leads(c, t, q)
  {
    hide Enabled, Do, Init, Apply;
    var ss: seq<State>, sts :| Run(c, ss, sts) && ss[|sts|] == s && Replay(ss[0].disk, sts, |sts|) == r;
    t, q := Do(c, s, st), Apply(r, st);
    ReplayPrefix(ss[0].disk, sts, st, |sts|);
    Longer(c, ss, sts, st);
    assert (ss + [t])[|sts + [st]|] == t && (ss + [t])[0] == ss[0];
  }

  // Machines on which a process can log a block, and sector 0 is not the log's.
  ghost predicate Works(c: Config) {
    Sane(c) && c.procs > 0 && c.size >= 2 && c.g.start > 0
  }

  // The machine has booted from a zero device.
  lemma Boot(c: Config) returns (s: State, d: Disk)
    requires Works(c)
    ensures |d| == c.sectors && (forall x | 0 <= x < |d| :: d[x] == ZeroBlock()) && Leads(c, s, Store(d, d))
    ensures s.phase == Normal && !s.committing && s.outstanding == 0 && s.lh == []
    ensures |s.ops| == c.procs && s.ops[0] == Idle && s.cache.Keys == {HeadSector(c.g)}
    ensures s.cache[HeadSector(c.g)].holder == None && !s.cache[HeadSector(c.g)].changed
    ensures |s.disk| == |d| && forall x | 0 <= x < |d| && x != HeadSector(c.g) :: s.disk[x] == ZeroBlock()
  {
    hide Leads;
    d := seq(c.sectors, _ => ZeroBlock());
    var h := HeadSector(c.g);
    s := State(d, map[], seq(c.procs, _ => Idle), 0, false, [], Booting);
    assert d[h] == ZeroBlock();
    StartsHere(c, s, d);
    var r := Store(d, d);
    s, r := Further(c, s, r, Fill(h));
    assert View(s, h) == d[h];
    s, r := Further(c, s, r, ReadHead);
    s, r := Further(c, s, r, ClearCount);
    s, r := Further(c, s, r, ClearHead);
  }

  lemma StartsHere(c: Config, s: State, d: Disk)
    requires Init(c, s) && s.disk == d
    ensures Leads(c, s, Store(d, d))
  {
    var sts: seq<Step> := [];
    assert Run(c, [s], sts) && [s][|sts|] == s && Replay([s][0].disk, sts, 0) == Store(d, d);
  }

  function Mark(): Block { PutWord(ZeroBlock(), 0, 1) }

  lemma MarkShows()
    ensures Mark() != ZeroBlock()
  {
    assert Word(Mark(), 0) == 1 && Word(ZeroBlock(), 0) == 0;
  }

  // Process 0 opens an operation and reads block 0.
  lemma ReadZero(c: Config, s: State, d: Disk) returns (t: State)
    requires Works(c) && |d| == |s.disk| == c.sectors && Leads(c, s, Store(d, d))
    requires s.phase == Normal && !s.committing && s.outstanding == 0 && s.lh == []
    requires |s.ops| == c.procs && s.ops[0] == Idle && 0 !in s.cache && |s.cache.Keys| < NBUF
    ensures Leads(c, t, Store(d, d))
    ensures t == s.(ops := s.ops[0 := Open(c.share, {}, None)], outstanding := 1,
                    cache := s.cache[0 := Buf(s.disk[0], false, Some(0), false)])
  {
    hide Leads;
    var r := Store(d, d);
    t, r := Further(c, s, r, Begin(0));
    t, r := Further(c, t, r, Fill(0));
    t, r := Further(c, t, r, Hold(0, 0));
  }

  // It changes the block and logs it.
  lemma LogMark(c: Config, s: State, d: Disk) returns (t: State)
    requires Works(c) && |d| == |s.disk| == c.sectors && Leads(c, s, Store(d, d)) && c.g.lba > 0
    requires s.phase == Normal && s.outstanding == 1 && s.lh == [] && |s.ops| == c.procs
    requires s.ops[0] == Open(c.share, {}, None) && 0 in s.cache && s.cache[0] == Buf(s.disk[0], false, Some(0), false)
    ensures Leads(c, t, Store(d[0 := Mark()], d))
    ensures t == s.(ops := t.ops, lh := [0], cache := s.cache[0 := Buf(Mark(), true, None, false)])
    ensures |t.ops| == c.procs && t.ops[0].Open? && t.ops[0].call == None
  {
    hide Leads, Mark;
    var r := Store(d, d);
    t, r := Further(c, s, r, Modify(0, 0, Mark()));
    t, r := Further(c, t, r, Check(0, 0));
    t, r := Further(c, t, r, Record(0, 0));
    t, r := Further(c, t, r, Release(0, 0));
  }

  // Commit logs another block than that, and writes the header.
  lemma CommitMark(c: Config, s: State, d: Disk, saved: Disk) returns (t: State)
    requires Works(c) && c.g.lba > 0 && Leads(c, s, Store(d, saved)) && |s.disk| == |d| == c.sectors
    requires s.phase == Normal && !s.committing && s.outstanding == 1 && s.lh == [0]
    requires |s.ops| == c.procs && s.ops[0].Open? && s.ops[0].call == None
    requires s.cache.Keys == {HeadSector(c.g), 0} && s.cache[HeadSector(c.g)].holder == None
    requires forall x | x in s.cache :: !s.cache[x].changed && s.cache[x].holder == None
    ensures Leads(c, t, Store(d, d)) && |t.disk| == |s.disk| && Word(t.disk[HeadSector(c.g)], 0) == 1
    ensures Word(t.disk[HeadSector(c.g)], 1) == 0 && t.disk[0] == s.disk[0]
  {
    hide Leads;
    var r := Store(d, saved);
    var l, b := LogSector(c.g, 0), Home(c.g, 0);
    t, r := Further(c, s, r, End(0));
    t, r := Further(c, t, r, Fill(l));
    assert t.cache.Keys == {HeadSector(c.g), 0, l};
    t, r := Further(c, t, r, Fill(b));
    t, r := Further(c, t, r, WriteLogBlock);
    HeadBlockAt(View(t, HeadSector(c.g)), t.lh);
    t, r := Further(c, t, r, WriteHead);
  }

  /** Over all runs: what recovery would leave is what was saved, exactly if LBA is 0. */
  lemma ReplayExactlyAtZeroLba(c: Config)
    requires Works(c) && Fits(c)
    ensures Replays(c) <==> c.g.lba == 0
  {
    RecordReachesIff(c.g);
    if c.g.lba == 0 {
      forall ss: seq<State>, sts, k | Run(c, ss, sts) && 0 <= k < |ss|
        ensures Survives(c, ss[k], Replay(ss[0].disk, sts, k))
      {
        RunIsReplay(c, ss, sts, k);
        HeadAlways(c, ss[k]);
      }
    } else {
      Lost(c);
    }
  }

  // Sector 0 is not one that recovery writes.
  lemma MarkLost(c: Config, t: State, d: Disk)
    requires Works(c) && c.g.lba > 0 && |t.disk| == |d| == c.sectors && d[0] == Mark() && t.disk[0] == ZeroBlock()
    requires Word(t.disk[HeadSector(c.g)], 0) == 1 && Word(t.disk[HeadSector(c.g)], 1) == 0
    ensures forall r | r == Store(d, d) :: !Survives(c, t, r)
  {
    MarkShows();
    if HeadOk(c.g, t.disk) {
      RecoveredAt(c.g, t.disk);
      assert Recovered(c.g, t.disk)[0] == t.disk[0];
    }
  }

  lemma Lost(c: Config)
    requires Works(c) && c.g.lba > 0
    ensures !Replays(c)
  {
    var s, d := Boot(c);
    hide Leads, Replays, Sane;
    s := ReadZero(c, s, d);
    var u := LogMark(c, s, d);
    var e := d[0 := Mark()];
    assert u.cache.Keys == {HeadSector(c.g), 0};
    var t := CommitMark(c, u, e, d);
    MarkLost(c, t, e);
    NotReplayed(c, t, Store(e, e));
  }

  lemma NotReplayed(c: Config, s: State, r: Store)
    requires Leads(c, s, r) && !Survives(c, s, r)
    ensures !Replays(c)
  {
    var ss: seq<State>, sts :| Run(c, ss, sts) && ss[|sts|] == s && Replay(ss[0].disk, sts, |sts|) == r;
  }
}
