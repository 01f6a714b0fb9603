/** The on-disk redo log (kern/log.c): what commit and recovery write, and what survives a crash. */
module Redo {
  import opened Bytes
  import opened Device
  import opened Limits

  // bread(r) reaches sector r + lba; the log is the header block start and cap blocks after it.
  datatype Geometry = Geometry(lba: nat, start: nat, cap: nat)

  function Home(g: Geometry, r: nat): nat { r + g.lba }

  function HeadSector(g: Geometry): nat { Home(g, g.start) }

  function LogSector(g: Geometry, i: nat): nat { Home(g, g.start + i + 1) }

  predicate InLog(g: Geometry, s: nat) {
    HeadSector(g) <= s <= HeadSector(g) + g.cap
  }

  // ---------- the header block ----------

  // The words n and block[0..n) written over an old block.
  function HeadBlock(b: Block, lh: seq<u32>): Block
    requires |lh| <= LOGSIZE
  {
    PutEntries(PutWord(b, 0, |lh|), lh, |lh|)
  }

  // Entries block[0..k) written over b, one after another.
  function PutEntries(b: Block, lh: seq<u32>, k: nat): Block
    requires k <= |lh| <= LOGSIZE
  {
    if k == 0 then b else PutWord(PutEntries(b, lh, k - 1), k, lh[k - 1])
  }

  lemma {:induction false} PutEntriesAt(b: Block, lh: seq<u32>, k: nat)
    requires k <= |lh| <= LOGSIZE
    ensures forall i: nat | 0 < i < BSIZE / 4 :: Word(PutEntries(b, lh, k), i) == if i <= k then lh[i - 1] else Word(b, i)
    ensures Word(PutEntries(b, lh, k), 0) == Word(b, 0)
  {
    if k > 0 {
      PutEntriesAt(b, lh, k - 1);
    }
  }

  // Only the words in use change.
  lemma HeadBlockAt(b: Block, lh: seq<u32>)
    requires |lh| <= LOGSIZE
    ensures Word(HeadBlock(b, lh), 0) == |lh|
    ensures forall i: nat | 0 < i < BSIZE / 4 :: Word(HeadBlock(b, lh), i) == if i <= |lh| then lh[i - 1] else Word(b, i)
  {
    PutEntriesAt(PutWord(b, 0, |lh|), lh, |lh|);
  }

  ghost function Entries(b: Block): seq<u32>
    requires Word(b, 0) <= LOGSIZE
  {
    seq(Word(b, 0), i requires 0 <= i < Word(b, 0) => Word(b, i + 1))
  }

  lemma EntriesOfHead(b: Block, lh: seq<u32>)
    requires |lh| <= LOGSIZE
    ensures Word(HeadBlock(b, lh), 0) == |lh| && Entries(HeadBlock(b, lh)) == lh
  {
    HeadBlockAt(b, lh);
  }

  // ---------- where blocks live ----------

  ghost predicate Room(g: Geometry, n: nat) {
    HeadSector(g) + g.cap < n
  }

  // Logged blocks have distinct home sectors outside the log.
  ghost predicate Placed(g: Geometry, lh: seq<u32>, n: nat) {
    && Room(g, n)
    && |lh| <= LOGSIZE && |lh| <= g.cap
    && (forall i | 0 <= i < |lh| :: Home(g, lh[i]) < n && !InLog(g, Home(g, lh[i])))
    && NoneTwice(lh)
  }

  // No number twice.
  ghost predicate NoneTwice(lh: seq<u32>) {
    lh != [] ==> lh[|lh| - 1] !in lh[..|lh| - 1] && NoneTwice(lh[..|lh| - 1])
  }

  lemma {:induction false} NoneTwiceAt(lh: seq<u32>, i: nat, j: nat)
    requires NoneTwice(lh) && i < j < |lh|
    ensures lh[i] != lh[j]
    decreases |lh|
  {
    var front := lh[..|lh| - 1];
    if j < |lh| - 1 {
      NoneTwiceAt(front, i, j);
    } else {
      assert front[i] == lh[i];
    }
  }

  lemma NoneTwiceTail(lh: seq<u32>, i: nat)
    requires NoneTwice(lh) && i < |lh|
    ensures lh[i..] == [lh[i]] + lh[i + 1..] && lh[i] !in lh[i + 1..]
  {
    forall j: nat | i < j < |lh|
      ensures lh[j] != lh[i]
    {
      NoneTwiceAt(lh, i, j);
    }
  }

  lemma NoneTwiceMore(lh: seq<u32>, x: u32)
    requires NoneTwice(lh) && x !in lh
    ensures NoneTwice(lh + [x])
  {
    assert (lh + [x])[..|lh|] == lh;
  }

  lemma NoRepeats(g: Geometry, lh: seq<u32>, n: nat, i: nat, j: nat)
    requires Placed(g, lh, n) && i < |lh| && j < |lh| && i != j
    ensures lh[i] != lh[j]
  {
    NoneTwiceAt(lh, if i < j then i else j, if i < j then j else i);
  }

  ghost predicate HeadOk(g: Geometry, d: Disk) {
    && Room(g, |d|)
    && Word(d[HeadSector(g)], 0) <= LOGSIZE
    && Placed(g, Entries(d[HeadSector(g)]), |d|)
  }

  // Equal outside the log.
  ghost predicate SameHome(g: Geometry, a: Disk, b: Disk) {
    |a| == |b| && forall s | 0 <= s < |a| && !InLog(g, s) :: a[s] == b[s]
  }

  ghost predicate LogEmpty(g: Geometry, d: Disk) {
    Room(g, |d|) && Word(d[HeadSector(g)], 0) == 0
  }

  // ---------- what is written ----------

  // The k-th sector write of commit(), when bread shows v: write_log, write_head,
  // install_trans, and write_head again.
  ghost function CommitWrite(g: Geometry, v: Disk, lh: seq<u32>, k: nat): (w: Write)
    requires Placed(g, lh, |v|) && k < 2 * |lh| + 2
    ensures w.sector < |v|
  {
    var n := |lh|;
    var head := HeadBlock(v[HeadSector(g)], lh);
    if k < n then Write(LogSector(g, k), v[Home(g, lh[k])])
    else if k == n then Write(HeadSector(g), head)
    else if k <= 2 * n then Write(Home(g, lh[k - n - 1]), v[Home(g, lh[k - n - 1])])
    else Write(HeadSector(g), HeadBlock(head, []))
  }

  ghost function CommitWrites(g: Geometry, v: Disk, lh: seq<u32>): (ws: seq<Write>)
    requires Placed(g, lh, |v|)
    ensures InRange(|v|, ws)
    ensures lh != [] ==> |ws| == 2 * |lh| + 2 && forall k | 0 <= k < |ws| :: ws[k] == CommitWrite(g, v, lh, k)
  {
    if lh == [] then []
    else seq(2 * |lh| + 2, k requires 0 <= k < 2 * |lh| + 2 => CommitWrite(g, v, lh, k))
  }

  // recover_from_log(): read_head, install_trans, write_head.
  ghost function RecoverWrites(g: Geometry, d: Disk): (ws: seq<Write>)
    requires HeadOk(g, d)
    ensures InRange(|d|, ws) && |ws| == Word(d[HeadSector(g)], 0) + 1
  {
    var head := d[HeadSector(g)];
    var lh := Entries(head);
    seq(|lh| + 1, k requires 0 <= k < |lh| + 1 =>
      if k < |lh| then Write(Home(g, lh[k]), d[LogSector(g, k)]) else Write(HeadSector(g), HeadBlock(head, [])))
  }

  ghost function Recovered(g: Geometry, d: Disk): (r: Disk)
    requires HeadOk(g, d)
    ensures |r| == |d|
  {
    var ws := RecoverWrites(g, d);
    After(d, ws, |ws|)
  }

  // ---------- recovery ----------

  // On x the first j blocks logged on d are installed, and nothing else differs.
  ghost predicate PartDone(g: Geometry, d: Disk, x: Disk, j: nat)
    requires HeadOk(g, d) && j <= Word(d[HeadSector(g)], 0)
  {
    var lh := Entries(d[HeadSector(g)]);
    && |x| == |d|
    && (forall i | 0 <= i < j :: x[Home(g, lh[i])] == d[LogSector(g, i)])
    && (forall s | 0 <= s < |d| && (forall i | 0 <= i < j :: Home(g, lh[i]) != s) :: x[s] == d[s])
  }

  lemma PartMore(g: Geometry, d: Disk, x: Disk, j: nat)
    requires HeadOk(g, d) && j < Word(d[HeadSector(g)], 0) && PartDone(g, d, x, j)
    ensures var lh := Entries(d[HeadSector(g)]);
            PartDone(g, d, x[Home(g, lh[j]) := d[LogSector(g, j)]], j + 1)
  {
    hide NoneTwice;
    var lh := Entries(d[HeadSector(g)]);
    forall i | 0 <= i < j
      ensures lh[i] != lh[j]
    {
      NoRepeats(g, lh, |d|, i, j);
    }
  }

  // The first j writes of recovery install the first j logged blocks.
  lemma {:induction false} RecoverPart(g: Geometry, d: Disk, j: nat)
    requires HeadOk(g, d) && j <= Word(d[HeadSector(g)], 0)
    ensures PartDone(g, d, After(d, RecoverWrites(g, d), j), j)
  {
    if j > 0 {
      RecoverPart(g, d, j - 1);
      PartMore(g, d, After(d, RecoverWrites(g, d), j - 1), j - 1);
    }
  }

  // A completed recovery copies every logged block home and empties the log.
  lemma RecoveredAt(g: Geometry, d: Disk)
    requires HeadOk(g, d)
    ensures var lh := Entries(d[HeadSector(g)]);
            && (forall i | 0 <= i < |lh| :: Recovered(g, d)[Home(g, lh[i])] == d[LogSector(g, i)])
            && (forall s | 0 <= s < |d| && s != HeadSector(g) && (forall i | 0 <= i < |lh| :: Home(g, lh[i]) != s) ::
                  Recovered(g, d)[s] == d[s])
    ensures LogEmpty(g, Recovered(g, d))
  {
    var ws := RecoverWrites(g, d);
    RecoverPart(g, d, |ws| - 1);
    assert ws[|ws| - 1] == Write(HeadSector(g), HeadBlock(d[HeadSector(g)], []));
  }

  // Recovery cut short after j writes and run again ends as if it had not been cut short.
  lemma RecoverAgain(g: Geometry, d: Disk, j: nat)
    requires HeadOk(g, d) && j <= |RecoverWrites(g, d)|
    ensures HeadOk(g, After(d, RecoverWrites(g, d), j))
    ensures SameHome(g, Recovered(g, After(d, RecoverWrites(g, d), j)), Recovered(g, d))
  {
    var x := After(d, RecoverWrites(g, d), j);
    if j <= Word(d[HeadSector(g)], 0) {
      RecoverPart(g, d, j);
      RecoverSame(g, d, x, j);
    } else {
      RecoverNothing(g, d, x);
    }
  }

  lemma RecoverNothing(g: Geometry, d: Disk, x: Disk)
    requires HeadOk(g, d) && x == Recovered(g, d)
    ensures HeadOk(g, x) && SameHome(g, Recovered(g, x), x)
  {
    RecoveredAt(g, d);
    RecoverEmpty(g, x);
  }

  lemma RecoverSame(g: Geometry, d: Disk, part: Disk, j: nat)
    requires HeadOk(g, d) && j <= Word(d[HeadSector(g)], 0)
    requires PartDone(g, d, part, j)
    ensures HeadOk(g, part) && SameHome(g, Recovered(g, part), Recovered(g, d))
  {
    var lh := Entries(d[HeadSector(g)]);
    assert forall s | 0 <= s < |d| && InLog(g, s) :: part[s] == d[s];
    RecoveredAt(g, d);
    RecoveredAt(g, part);
    forall s | 0 <= s < |d| && !InLog(g, s)
      ensures Recovered(g, part)[s] == Recovered(g, d)[s]
    {
      if i :| 0 <= i < |lh| && Home(g, lh[i]) == s {
        assert InLog(g, LogSector(g, i));
      }
    }
  }

  lemma RecoverEmpty(g: Geometry, d: Disk)
    requires LogEmpty(g, d)
    ensures HeadOk(g, d) && SameHome(g, Recovered(g, d), d)
  {
    assert Entries(d[HeadSector(g)]) == [];
    RecoveredAt(g, d);
  }

  // Recovery interrupted after crashes[0] writes, rebooted, interrupted after crashes[1], ...,
  // and finally run to the end.
  ghost function RecoveredAfter(g: Geometry, d: Disk, crashes: seq<nat>): Disk
    requires HeadOk(g, d)
    decreases |crashes|
  {
    if crashes == [] then Recovered(g, d)
    else
      var ws := RecoverWrites(g, d);
      var j := if crashes[0] <= |ws| then crashes[0] else |ws|;
      RecoverAgain(g, d, j);
      RecoveredAfter(g, After(d, ws, j), crashes[1..])
  }

  // Any number of crashes inside recovery makes no difference.
  lemma {:induction false} RecoveryIdempotent(g: Geometry, d: Disk, crashes: seq<nat>)
    requires HeadOk(g, d)
    ensures SameHome(g, RecoveredAfter(g, d, crashes), Recovered(g, d))
    ensures LogEmpty(g, RecoveredAfter(g, d, crashes))
    decreases |crashes|
  {
    if crashes == [] {
      RecoveredAt(g, d);
    } else {
      var ws := RecoverWrites(g, d);
      var j := if crashes[0] <= |ws| then crashes[0] else |ws|;
      RecoverAgain(g, d, j);
      RecoveryIdempotent(g, After(d, ws, j), crashes[1..]);
    }
  }

  // ---------- commit ----------

  // Home sectors hold the logged blocks as bread shows them, the others are as on device d.
  ghost predicate Installed(g: Geometry, r: Disk, d: Disk, v: Disk, lh: seq<u32>)
    requires Placed(g, lh, |d|) && |v| == |d|
  {
    && |r| == |d|
    && (forall i | 0 <= i < |lh| :: r[Home(g, lh[i])] == v[Home(g, lh[i])])
    && (forall s | 0 <= s < |d| && !InLog(g, s) && (forall i | 0 <= i < |lh| :: Home(g, lh[i]) != s) ::
          r[s] == d[s])
  }

  // Only log sectors before the header; then a complete log with m blocks installed.
  ghost predicate Logging(g: Geometry, x: Disk, d: Disk, v: Disk, lh: seq<u32>, k: nat)
    requires Placed(g, lh, |d|) && |v| == |d| && k <= |lh|
  {
    && |x| == |d|
    && (forall i | 0 <= i < k :: x[LogSector(g, i)] == v[Home(g, lh[i])])
    && (forall s | 0 <= s < |d| && !(LogSector(g, 0) <= s < LogSector(g, |lh|)) :: x[s] == d[s])
  }

  ghost predicate Installing(g: Geometry, x: Disk, d: Disk, v: Disk, lh: seq<u32>, m: nat)
    requires Placed(g, lh, |d|) && |v| == |d| && m <= |lh|
  {
    && |x| == |d|
    && x[HeadSector(g)] == HeadBlock(v[HeadSector(g)], lh)
    && (forall i | 0 <= i < |lh| :: x[LogSector(g, i)] == v[Home(g, lh[i])])
    && (forall i | 0 <= i < m :: x[Home(g, lh[i])] == v[Home(g, lh[i])])
    && (forall s | 0 <= s < |d| && !InLog(g, s) && (forall i | 0 <= i < m :: Home(g, lh[i]) != s) ::
          x[s] == d[s])
  }

  // What holds of the device after k writes of a commit.
  ghost predicate Stage(g: Geometry, x: Disk, d: Disk, v: Disk, lh: seq<u32>, k: nat)
    requires Placed(g, lh, |d|) && |v| == |d| && k <= 2 * |lh| + 2
  {
    if k <= |lh| then Logging(g, x, d, v, lh, k)
    else if k <= 2 * |lh| + 1 then Installing(g, x, d, v, lh, k - |lh| - 1)
    else LogEmpty(g, x) && Installed(g, x, d, v, lh)
  }

  lemma LogOne(g: Geometry, x: Disk, d: Disk, v: Disk, lh: seq<u32>, k: nat)
    requires Placed(g, lh, |d|) && |v| == |d| && k < |lh|
    requires Logging(g, x, d, v, lh, k)
    ensures Logging(g, x[LogSector(g, k) := v[Home(g, lh[k])]], d, v, lh, k + 1)
  {
  }

  lemma HeadOne(g: Geometry, x: Disk, d: Disk, v: Disk, lh: seq<u32>)
    requires Placed(g, lh, |d|) && |v| == |d|
    requires Logging(g, x, d, v, lh, |lh|)
    ensures Installing(g, x[HeadSector(g) := HeadBlock(v[HeadSector(g)], lh)], d, v, lh, 0)
  {
  }

  lemma InstallOne(g: Geometry, x: Disk, d: Disk, v: Disk, lh: seq<u32>, m: nat)
    requires Placed(g, lh, |d|) && |v| == |d| && m < |lh|
    requires Installing(g, x, d, v, lh, m)
    ensures Installing(g, x[Home(g, lh[m]) := v[Home(g, lh[m])]], d, v, lh, m + 1)
  {
    assert InLog(g, HeadSector(g)) && forall i | 0 <= i < |lh| :: InLog(g, LogSector(g, i));
    forall i | 0 <= i < |lh| && i != m
      ensures lh[i] != lh[m]
    {
      NoRepeats(g, lh, |d|, i, m);
    }
  }

  lemma ClearOne(g: Geometry, x: Disk, d: Disk, v: Disk, lh: seq<u32>)
    requires Placed(g, lh, |d|) && |v| == |d|
    requires Installing(g, x, d, v, lh, |lh|)
    ensures var y := x[HeadSector(g) := HeadBlock(HeadBlock(v[HeadSector(g)], lh), [])];
            LogEmpty(g, y) && Installed(g, y, d, v, lh)
  {
    assert InLog(g, HeadSector(g));
  }

  // The k-th write of a commit takes the device from stage k to stage k + 1.
  lemma StageNext(g: Geometry, x: Disk, d: Disk, v: Disk, lh: seq<u32>, k: nat)
    requires Placed(g, lh, |d|) && |v| == |d| && k < 2 * |lh| + 2
    requires Stage(g, x, d, v, lh, k)
    ensures Stage(g, x[CommitWrite(g, v, lh, k).sector := CommitWrite(g, v, lh, k).data], d, v, lh, k + 1)
  {
    if k < |lh| {
      LogOne(g, x, d, v, lh, k);
    } else if k == |lh| {
      HeadOne(g, x, d, v, lh);
    } else if k <= 2 * |lh| {
      InstallOne(g, x, d, v, lh, k - |lh| - 1);
    } else {
      ClearOne(g, x, d, v, lh);
    }
  }

  lemma {:induction false} StageByStage(g: Geometry, d: Disk, v: Disk, lh: seq<u32>, ws: seq<Write>, k: nat)
    requires LogEmpty(g, d) && Placed(g, lh, |d|) && |v| == |d| && lh != []
    requires |ws| == 2 * |lh| + 2 && InRange(|d|, ws) && k <= |ws|
    requires forall i | 0 <= i < |ws| :: ws[i] == CommitWrite(g, v, lh, i)
    ensures Stage(g, After(d, ws, k), d, v, lh, k)
    decreases k
  {
    hide NoneTwice, Installing, HeadBlock;
    if k > 0 {
      StageByStage(g, d, v, lh, ws, k - 1);
      StageNext(g, After(d, ws, k - 1), d, v, lh, k - 1);
    }
  }

  lemma CommitStage(g: Geometry, d: Disk, v: Disk, lh: seq<u32>, k: nat)
    requires LogEmpty(g, d) && Placed(g, lh, |d|) && |v| == |d| && lh != [] && k <= 2 * |lh| + 2
    ensures Stage(g, After(d, CommitWrites(g, v, lh), k), d, v, lh, k)
  {
    StageByStage(g, d, v, lh, CommitWrites(g, v, lh), k);
  }

  // A commit run to the end.
  lemma CommitDone(g: Geometry, d: Disk, v: Disk, lh: seq<u32>)
    requires LogEmpty(g, d) && Placed(g, lh, |d|) && |v| == |d|
    ensures var ws := CommitWrites(g, v, lh);
            LogEmpty(g, After(d, ws, |ws|)) && Installed(g, After(d, ws, |ws|), d, v, lh)
  {
    if lh != [] {
      CommitStage(g, d, v, lh, 2 * |lh| + 2);
    }
  }

  lemma RecoverInstalling(g: Geometry, x: Disk, d: Disk, v: Disk, lh: seq<u32>, m: nat)
    requires Placed(g, lh, |d|) && |v| == |d| && m <= |lh| && Installing(g, x, d, v, lh, m)
    ensures HeadOk(g, x) && Installed(g, Recovered(g, x), d, v, lh)
  {
    EntriesOfHead(v[HeadSector(g)], lh);
    RecoveredAt(g, x);
  }

  // A crash after k writes of a commit, then recovery: the home sectors are untouched if the
  // header had not been written, and hold the whole transaction if it had.
  lemma CommitCrash(g: Geometry, d: Disk, v: Disk, lh: seq<u32>, k: nat)
    requires LogEmpty(g, d) && Placed(g, lh, |d|) && |v| == |d|
    requires k <= |CommitWrites(g, v, lh)|
    ensures HeadOk(g, After(d, CommitWrites(g, v, lh), k))
    ensures k <= |lh| ==> SameHome(g, Recovered(g, After(d, CommitWrites(g, v, lh), k)), d)
    ensures k > |lh| ==> Installed(g, Recovered(g, After(d, CommitWrites(g, v, lh), k)), d, v, lh)
  {
    var x := After(d, CommitWrites(g, v, lh), k);
    if lh == [] {
      RecoverEmpty(g, d);
    } else {
      CommitStage(g, d, v, lh, k);
      if k <= |lh| {
        RecoverEmpty(g, x);
      } else if k <= 2 * |lh| + 1 {
        RecoverInstalling(g, x, d, v, lh, k - |lh| - 1);
      } else {
        RecoverEmpty(g, x);
      }
    }
  }

  // ---------- histories ----------

  // A group commit: the recorded block numbers and the contents of their buffers.
  datatype Txn = Txn(lh: seq<u32>, blocks: seq<Block>)

  ghost predicate TxnOk(g: Geometry, t: Txn, n: nat) {
    Placed(g, t.lh, n) && |t.blocks| == |t.lh|
  }

  ghost function Overlaid(g: Geometry, d: Disk, t: Txn, s: nat): Block
    requires TxnOk(g, t, |d|) && s < |d|
  {
    if exists i :: 0 <= i < |t.lh| && Home(g, t.lh[i]) == s then
      var i :| 0 <= i < |t.lh| && Home(g, t.lh[i]) == s;
      t.blocks[i]
    else d[s]
  }

  // What bread shows just before the commit: the device with the dirty buffers over it.
  ghost function Overlay(g: Geometry, d: Disk, t: Txn): (v: Disk)
    requires TxnOk(g, t, |d|)
    ensures |v| == |d|
  {
    seq(|d|, s requires 0 <= s < |d| => Overlaid(g, d, t, s))
  }

  // The device after committing the transactions ts one after another.
  ghost function RunAll(g: Geometry, d: Disk, ts: seq<Txn>): (r: Disk)
    requires forall i | 0 <= i < |ts| :: TxnOk(g, ts[i], |d|)
    ensures |r| == |d|
    decreases |ts|
  {
    if ts == [] then d
    else
      var t := ts[|ts| - 1];
      var p := RunAll(g, d, ts[..|ts| - 1]);
      var ws := CommitWrites(g, Overlay(g, p, t), t.lh);
      After(p, ws, |ws|)
  }

  // The store a user of transactions thinks of: each transaction applied at once.
  ghost function StoreAll(g: Geometry, d: Disk, ts: seq<Txn>): (r: Disk)
    requires forall i | 0 <= i < |ts| :: TxnOk(g, ts[i], |d|)
    ensures |r| == |d|
    decreases |ts|
  {
    if ts == [] then d else Overlay(g, StoreAll(g, d, ts[..|ts| - 1]), ts[|ts| - 1])
  }

  lemma InstalledIsOverlay(g: Geometry, r: Disk, p: Disk, q: Disk, t: Txn)
    requires TxnOk(g, t, |p|) && SameHome(g, p, q)
    requires Installed(g, r, p, Overlay(g, p, t), t.lh)
    ensures SameHome(g, r, Overlay(g, q, t))
  {
    var v, w := Overlay(g, p, t), Overlay(g, q, t);
    forall s | 0 <= s < |p| && !InLog(g, s)
      ensures r[s] == w[s]
    {
      if i :| 0 <= i < |t.lh| && Home(g, t.lh[i]) == s {
        forall j | 0 <= j < |t.lh| && j != i
          ensures t.lh[j] != t.lh[i]
        {
          NoRepeats(g, t.lh, |p|, j, i);
        }
        assert v[s] == t.blocks[i] == w[s];
      }
    }
  }

  lemma {:induction false} RunIsStore(g: Geometry, d: Disk, ts: seq<Txn>)
    requires LogEmpty(g, d) && forall i | 0 <= i < |ts| :: TxnOk(g, ts[i], |d|)
    ensures LogEmpty(g, RunAll(g, d, ts)) && SameHome(g, RunAll(g, d, ts), StoreAll(g, d, ts))
    decreases |ts|
  {
    if ts != [] {
      var t, before := ts[|ts| - 1], ts[..|ts| - 1];
      RunIsStore(g, d, before);
      var p := RunAll(g, d, before);
      CommitDone(g, p, Overlay(g, p, t), t.lh);
      InstalledIsOverlay(g, RunAll(g, d, ts), p, StoreAll(g, d, before), t);
    }
  }

  /** Crash atomicity: after any committed transactions, a crash at any write of the next commit,
      and any number of further crashes inside recovery, a completed recovery leaves the home
      sectors of all the earlier transactions, and of the interrupted one exactly if its header
      had reached the device; and the log is empty. */
  lemma CrashAtomicity(g: Geometry, d: Disk, ts: seq<Txn>, t: Txn, k: nat, crashes: seq<nat>)
    requires LogEmpty(g, d) && TxnOk(g, t, |d|) && forall i | 0 <= i < |ts| :: TxnOk(g, ts[i], |d|)
    requires k <= |CommitWrites(g, Overlay(g, RunAll(g, d, ts), t), t.lh)|
    ensures var p := RunAll(g, d, ts);
            var x := After(p, CommitWrites(g, Overlay(g, p, t), t.lh), k);
            && HeadOk(g, x)
            && LogEmpty(g, RecoveredAfter(g, x, crashes))
            && SameHome(g, RecoveredAfter(g, x, crashes), StoreAll(g, d, if k <= |t.lh| then ts else ts + [t]))
  {
    RunIsStore(g, d, ts);
    var p := RunAll(g, d, ts);
    var v := Overlay(g, p, t);
    var x := After(p, CommitWrites(g, v, t.lh), k);
    CommitCrash(g, p, v, t.lh, k);
    RecoveryIdempotent(g, x, crashes);
    if k > |t.lh| {
      InstalledIsOverlay(g, Recovered(g, x), p, StoreAll(g, d, ts), t);
      assert (ts + [t])[..|ts|] == ts;
    }
  }

  // ---------- which sectors a commit really installs ----------

  ghost function Least(lh: seq<u32>): (m: nat)
    requires lh != []
    ensures m < |lh| && forall i | 0 <= i < |lh| :: lh[m] <= lh[i]
    decreases |lh|
  {
    if |lh| == 1 then 0
    else
      var k := Least(lh[..|lh| - 1]);
      if lh[|lh| - 1] < lh[k] then |lh| - 1 else k
  }

  /** log_write records b->blockno, a sector number that already includes lba, and bread adds lba
      again. So the buffers changed by a transaction reach their own sectors exactly if lba is 0
      (or nothing was logged): with any other lba the lowest logged sector keeps its old contents. */
  lemma DurableExactlyAtZeroLba(g: Geometry, d: Disk, v: Disk, lh: seq<u32>)
    requires LogEmpty(g, d) && Placed(g, lh, |d|) && |v| == |d|
    requires forall i | 0 <= i < |lh| :: lh[i] < |d| && !InLog(g, lh[i]) && v[lh[i]] != d[lh[i]]
    ensures var ws := CommitWrites(g, v, lh);
            (forall i | 0 <= i < |lh| :: After(d, ws, |ws|)[lh[i]] == v[lh[i]]) <==> (g.lba == 0 || lh == [])
  {
    if lh != [] {
      CommitDone(g, d, v, lh);
      var ws := CommitWrites(g, v, lh);
      var r := After(d, ws, |ws|);
      if g.lba == 0 {
        forall i | 0 <= i < |lh|
          ensures r[lh[i]] == v[lh[i]]
        {
          assert Home(g, lh[i]) == lh[i];
        }
      } else {
        var m := Least(lh);
        assert forall i | 0 <= i < |lh| :: Home(g, lh[i]) != lh[m];
        assert r[lh[m]] == d[lh[m]];
      }
    }
  }
}
