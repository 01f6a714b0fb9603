/** What a crash leaves of a file that is being written: the chunks of file_write up to some point, each
    whole, on a sound volume. */
module JournalFiles {
  import opened Bytes
  import opened Device
  import opened Redo
  import opened Layout
  import opened Journal
  import opened JournalRun
  import FileWrite

  // ---------- the state that is saved ----------

  // The operations that have ended.
  function Ended(sts: seq<Step>, k: nat): nat
    requires k <= |sts|
  {
    if k == 0 then 0 else Ended(sts, k - 1) + (if sts[k - 1].End? then 1 else 0)
  }

  lemma {:induction false} EndedGrows(sts: seq<Step>, j: nat, k: nat)
    requires j <= k <= |sts|
    ensures Ended(sts, j) <= Ended(sts, k)
    decreases k
  {
    if j < k {
      EndedGrows(sts, j, k - 1);
    }
  }

  lemma HeadIsQuiet(c: Config, ss: seq<State>, sts: seq<Step>, k: nat)
    requires ConfigOk(c) && Run(c, ss, sts) && k < |sts| && sts[k].WriteHead?
    ensures ss[k].outstanding == 0
  {
    RunInv(c, ss, sts, k);
    assert Enabled(c, ss[k], sts[k]);
  }

  /** What is saved is what bread showed at some moment when no operation was open. */
  lemma {:induction false} SavedIsQuiet(c: Config, ss: seq<State>, sts: seq<Step>, k: nat) returns (j: nat)
    requires ConfigOk(c) && Run(c, ss, sts) && k < |ss|
    ensures j <= k && ss[j].outstanding == 0 && Replay(ss[0].disk, sts, k).saved == Replay(ss[0].disk, sts, j).now
    decreases k
  {
    hide Enabled, Do, ConfigOk;
    if k == 0 {
      j := 0;
    } else if sts[k - 1].WriteHead? {
      HeadIsQuiet(c, ss, sts, k - 1);
      j := k - 1;
    } else {
      j := SavedIsQuiet(c, ss, sts, k - 1);
    }
  }

  // ---------- a write ----------

  // The schedule carries out operations that leave the device as was, imgs[0], imgs[1], ...: whenever
  // none is open, bread shows what the last of them left. So does that of one process, until it crashes.
  ghost predicate Carries(c: Config, ss: seq<State>, sts: seq<Step>, k: nat, was: Disk, imgs: seq<Disk>)
    requires |ss| == |sts| + 1
  {
    forall j: nat | j <= k && j < |ss| && ss[j].outstanding == 0 ::
      Ended(sts, j) <= |imgs|
      && SameHome(c.g, Replay(ss[0].disk, sts, j).now, FileWrite.ImageAt(was, imgs, Ended(sts, j)))
  }

  // The log is where the super block says.
  ghost predicate LogPlace(g: Geometry, sb: Super) {
    sb.nlog > 0 && g == Geometry(0, sb.logstart, sb.nlog - 1)
  }

  // The volume is outside the log.
  lemma SameVolume(sb: Super, g: Geometry, d: Disk, e: Disk)
    requires SuperOk(sb, |d|) && LogPlace(g, sb) && SameHome(g, d, e)
    ensures Abs(sb, d) == Abs(sb, e)
  {
    Regions(sb, |d|);
    forall i: nat | i < sb.ninodes
      ensures DinodeAt(sb, d, i) == DinodeAt(sb, e, i)
    {
      assert d[IBlock(sb, i)] == e[IBlock(sb, i)];
    }
    forall b: nat | b < sb.size
      ensures Used(sb, d, b) == Used(sb, e, b)
    {
      assert d[BBlock(sb, b)] == e[BBlock(sb, b)];
    }
    forall x: nat | x < |d|
      ensures DataAt(sb, d, x) == DataAt(sb, e, x)
    {
      assert x >= Meta(sb) ==> !InLog(g, x);
    }
  }

  /** Whenever the machine stops, recovery leaves the volume as it was after some of the operations that
      had ended, each whole. */
  lemma CrashKeepsOperations(c: Config, ss: seq<State>, sts: seq<Step>, k: nat, sb: Super, was: Disk, imgs: seq<Disk>)
    returns (j: nat)
    requires ConfigOk(c) && Run(c, ss, sts) && k < |ss| && Carries(c, ss, sts, k, was, imgs)
    requires SuperOk(sb, c.sectors) && LogPlace(c.g, sb)
    ensures j <= Ended(sts, k) && j <= |imgs|
    ensures |ss[k].disk| == c.sectors == |FileWrite.ImageAt(was, imgs, j)| && HeadOk(c.g, ss[k].disk)
    ensures Abs(sb, Recovered(c.g, ss[k].disk)) == Abs(sb, FileWrite.ImageAt(was, imgs, j))
  {
    RunIsReplay(c, ss, sts, k);
    HeadAlways(c, ss[k]);
    var q := SavedIsQuiet(c, ss, sts, k);
    EndedGrows(sts, q, k);
    j := Ended(sts, q);
    SameVolume(sb, c.g, Recovered(c.g, ss[k].disk), FileWrite.ImageAt(was, imgs, j));
  }

  /** A write that is interrupted: recovery leaves a sound volume, on which the file is the old one with
      a number of whole chunks spliced in, and every other file is as it was. was is the device that
      file_write began with; imgs and i are what it came to. */
  lemma CrashedWrite(c: Config, ss: seq<State>, sts: seq<Step>, k: nat, sb: Super, was: Disk, imgs: seq<Disk>,
                     cs: seq<seq<byte>>, ino: nat, off: nat, addr: seq<byte>, i: nat) returns (j: nat)
    requires ConfigOk(c) && Run(c, ss, sts) && k < |ss| && Carries(c, ss, sts, k, was, imgs)
    requires SuperOk(sb, c.sectors) && LogPlace(c.g, sb)
    requires FileWrite.Shown(sb, was, cs, ino, off, addr, 0) && FileWrite.Staged(sb, imgs, cs, ino, off, addr, i)
    ensures j <= Ended(sts, k) && |ss[k].disk| == c.sectors && HeadOk(c.g, ss[k].disk)
    ensures FileWrite.Shown(sb, Recovered(c.g, ss[k].disk), cs, ino, off, addr, FileWrite.Part(j, i))
  {
    j := CrashKeepsOperations(c, ss, sts, k, sb, was, imgs);
    hide Run, Carries, ConfigOk, HeadOk, FileWrite.Staged, FileWrite.Shown;
    ImageShown(sb, was, imgs, cs, ino, off, addr, i, j);
    ShownSame(sb, FileWrite.ImageAt(was, imgs, j), Recovered(c.g, ss[k].disk), cs, ino, off, addr, FileWrite.Part(j, i));
  }

  lemma ImageShown(sb: Super, was: Disk, imgs: seq<Disk>, cs: seq<seq<byte>>, ino: nat, off: nat, addr: seq<byte>, i: nat, j: nat)
    requires FileWrite.Shown(sb, was, cs, ino, off, addr, 0) && FileWrite.Staged(sb, imgs, cs, ino, off, addr, i) && j <= |imgs|
    ensures FileWrite.Shown(sb, FileWrite.ImageAt(was, imgs, j), cs, ino, off, addr, FileWrite.Part(j, i))
  {
    hide FileWrite.Shown;
  }

  lemma ShownSame(sb: Super, d: Disk, e: Disk, cs: seq<seq<byte>>, ino: nat, off: nat, addr: seq<byte>, i: nat)
    requires FileWrite.Shown(sb, d, cs, ino, off, addr, i) && |d| == |e| && SuperOk(sb, |d|) && Abs(sb, d) == Abs(sb, e)
    ensures FileWrite.Shown(sb, e, cs, ino, off, addr, i)
  {
    hide Abs;
  }
}
