/** What commit and recovery do to the device, told apart from how the buffers are managed. */
module LogRun {
  import opened Bytes
  import opened Device
  import opened Redo

  // The device, what bread shows of it, and every sector write so far.
  datatype Snap = Snap(shown: Disk, disk: Disk, trace: seq<Write>)

  // One sector write.
  ghost predicate Put(a: Snap, b: Snap, w: nat, x: Block) {
    && |a.shown| == |a.disk| && w < |a.disk|
    && b.trace == a.trace + [Write(w, x)]
    && b.disk == a.disk[w := x]
    && b.shown == a.shown[w := x]
  }

  // The sector writes ws, in order.
  ghost predicate Did(a: Snap, b: Snap, ws: seq<Write>) {
    && b.trace == a.trace + ws
    && InRange(|a.disk|, ws)
    && b.disk == After(a.disk, ws, |ws|)
    && |a.shown| == |a.disk| == |b.shown|
  }

  lemma DidOne(a: Snap, b: Snap, c: Snap, ws: seq<Write>, w: nat, x: Block)
    requires Did(a, b, ws) && Put(b, c, w, x)
    ensures Did(a, c, ws + [Write(w, x)])
  {
    AfterPrefix(a.disk, ws, [Write(w, x)], |ws|);
  }

  // ---------- the loops of write_log and install_trans ----------

  ghost predicate Logged(g: Geometry, lh: seq<u32>, a: Snap, b: Snap, ws: seq<Write>) {
    && Did(a, b, ws) && Placed(g, lh, |a.disk|) && |ws| <= |lh|
    && (forall k | 0 <= k < |ws| :: ws[k] == Write(LogSector(g, k), a.shown[Home(g, lh[k])]))
    && (forall k | 0 <= k < |ws| :: b.shown[LogSector(g, k)] == ws[k].data)
    && (forall s | 0 <= s < |a.disk| && (!InLog(g, s) || s == HeadSector(g)) :: b.shown[s] == a.shown[s])
  }

  lemma LoggedNone(g: Geometry, lh: seq<u32>, a: Snap)
    requires Placed(g, lh, |a.disk|) && |a.shown| == |a.disk|
    ensures Logged(g, lh, a, a, [])
  {
  }

  lemma LoggedWrites(g: Geometry, lh: seq<u32>, a: Snap, b: Snap, ws: seq<Write>)
    requires Logged(g, lh, a, b, ws)
    ensures Did(a, b, ws) && |ws| <= |lh| && Placed(g, lh, |a.shown|)
    ensures forall k | 0 <= k < |ws| :: ws[k] == Write(LogSector(g, k), a.shown[Home(g, lh[k])])
  {
  }

  lemma LoggedOne(g: Geometry, lh: seq<u32>, a: Snap, b: Snap, c: Snap, ws: seq<Write>, k: nat)
    requires Logged(g, lh, a, b, ws) && k == |ws| < |lh|
    requires Put(b, c, LogSector(g, k), b.shown[Home(g, lh[k])])
    ensures Logged(g, lh, a, c, ws + [Write(LogSector(g, k), a.shown[Home(g, lh[k])])])
  {
    DidOne(a, b, c, ws, LogSector(g, k), b.shown[Home(g, lh[k])]);
  }

  ghost predicate Homed(g: Geometry, lh: seq<u32>, a: Snap, b: Snap, ws: seq<Write>) {
    && Did(a, b, ws) && Placed(g, lh, |a.disk|) && |ws| <= |lh|
    && (forall k | 0 <= k < |ws| :: ws[k] == Write(Home(g, lh[k]), a.shown[LogSector(g, k)]))
    && (forall s | 0 <= s < |a.disk| && InLog(g, s) :: b.shown[s] == a.shown[s])
  }

  lemma HomedOne(g: Geometry, lh: seq<u32>, a: Snap, b: Snap, c: Snap, ws: seq<Write>, k: nat)
    requires Homed(g, lh, a, b, ws) && k == |ws| < |lh|
    requires Put(b, c, Home(g, lh[k]), b.shown[LogSector(g, k)])
    ensures Homed(g, lh, a, c, ws + [Write(Home(g, lh[k]), a.shown[LogSector(g, k)])])
  {
    assert InLog(g, LogSector(g, k));
    DidOne(a, b, c, ws, Home(g, lh[k]), b.shown[LogSector(g, k)]);
  }

  // ---------- commit ----------

  // The first k of the writes cw have been made.
  ghost predicate Upto(a: Snap, b: Snap, cw: seq<Write>, k: nat) {
    && k <= |cw| && InRange(|a.disk|, cw)
    && |b.trace| == |a.trace| + k
    && (forall i | 0 <= i < |b.trace| :: b.trace[i] == if i < |a.trace| then a.trace[i] else cw[i - |a.trace|])
    && b.disk == After(a.disk, cw, k)
  }

  // ws is what cw holds from position k on.
  ghost predicate Slice(cw: seq<Write>, k: nat, ws: seq<Write>) {
    k + |ws| <= |cw| && forall i | 0 <= i < |ws| :: ws[i] == cw[k + i]
  }

  lemma UptoMore(a: Snap, b: Snap, c: Snap, cw: seq<Write>, k: nat, ws: seq<Write>, j: nat)
    requires Upto(a, b, cw, k) && Did(b, c, ws) && Slice(cw, k, ws) && j == k + |ws|
    ensures Upto(a, c, cw, j)
  {
    AfterMore(a.disk, cw, k, ws, |ws|);
  }

  lemma UptoOne(a: Snap, b: Snap, c: Snap, cw: seq<Write>, k: nat)
    requires Upto(a, b, cw, k) && k < |cw| && Put(b, c, cw[k].sector, cw[k].data)
    ensures Upto(a, c, cw, k + 1)
  {
  }

  lemma LogsAre(g: Geometry, lh: seq<u32>, v: Disk, ws: seq<Write>)
    requires lh != [] && Placed(g, lh, |v|) && |ws| <= |lh|
    requires forall k | 0 <= k < |ws| :: ws[k] == Write(LogSector(g, k), v[Home(g, lh[k])])
    ensures Slice(CommitWrites(g, v, lh), 0, ws)
  {
    var cw := CommitWrites(g, v, lh);
    forall i | 0 <= i < |ws|
      ensures ws[i] == cw[0 + i]
    {
      assert cw[i] == CommitWrite(g, v, lh, i);
    }
  }

  lemma CommitLogs(g: Geometry, lh: seq<u32>, a: Snap, b: Snap, ws: seq<Write>)
    requires lh != [] && Did(a, b, ws) && Placed(g, lh, |a.shown|) && |ws| <= |lh|
    requires forall k | 0 <= k < |ws| :: ws[k] == Write(LogSector(g, k), a.shown[Home(g, lh[k])])
    ensures Upto(a, b, CommitWrites(g, a.shown, lh), |ws|)
  {
    var cw := CommitWrites(g, a.shown, lh);
    LogsAre(g, lh, a.shown, ws);
    assert Upto(a, a, cw, 0);
    UptoMore(a, a, b, cw, 0, ws, |ws|);
  }

  // The log and its header are complete in b.
  ghost predicate LogComplete(g: Geometry, lh: seq<u32>, a: Snap, b: Snap) {
    && Placed(g, lh, |a.shown|) && |a.shown| == |b.shown| && lh != []
    && Upto(a, b, CommitWrites(g, a.shown, lh), |lh| + 1)
    && b.shown[HeadSector(g)] == HeadBlock(a.shown[HeadSector(g)], lh)
    && (forall k | 0 <= k < |lh| :: b.shown[LogSector(g, k)] == a.shown[Home(g, lh[k])])
  }

  lemma CommitHeads(g: Geometry, lh: seq<u32>, a: Snap, b: Snap, c: Snap, ws: seq<Write>)
    requires lh != [] && Logged(g, lh, a, b, ws) && |ws| == |lh|
    requires Put(b, c, HeadSector(g), HeadBlock(b.shown[HeadSector(g)], lh))
    ensures LogComplete(g, lh, a, c)
  {
    CommitLogs(g, lh, a, b, ws);
    var cw := CommitWrites(g, a.shown, lh);
    assert cw[|lh|] == CommitWrite(g, a.shown, lh, |lh|);
    UptoOne(a, b, c, cw, |lh|);
  }

  lemma InstallsAre(g: Geometry, lh: seq<u32>, a: Snap, b: Snap, ws: seq<Write>)
    requires LogComplete(g, lh, a, b) && |ws| <= |lh|
    requires forall k | 0 <= k < |ws| :: ws[k] == Write(Home(g, lh[k]), b.shown[LogSector(g, k)])
    ensures Slice(CommitWrites(g, a.shown, lh), |lh| + 1, ws)
  {
    var cw := CommitWrites(g, a.shown, lh);
    forall i | 0 <= i < |ws|
      ensures ws[i] == cw[|lh| + 1 + i]
    {
      assert cw[|lh| + 1 + i] == CommitWrite(g, a.shown, lh, |lh| + 1 + i);
    }
  }

  lemma CommitInstalls(g: Geometry, lh: seq<u32>, a: Snap, b: Snap, c: Snap, ws: seq<Write>, k: nat)
    requires LogComplete(g, lh, a, b) && Did(b, c, ws) && |ws| <= |lh| && k == |lh| + 1 + |ws|
    requires forall k | 0 <= k < |ws| :: ws[k] == Write(Home(g, lh[k]), b.shown[LogSector(g, k)])
    ensures Upto(a, c, CommitWrites(g, a.shown, lh), k)
  {
    hide Did, Upto, Placed;
    InstallsAre(g, lh, a, b, ws);
    UptoMore(a, b, c, CommitWrites(g, a.shown, lh), |lh| + 1, ws, k);
  }

  lemma CommitClears(g: Geometry, lh: seq<u32>, a: Snap, b: Snap, c: Snap, k: nat)
    requires lh != [] && Placed(g, lh, |a.shown|) && |a.shown| == |b.shown| && k == 2 * |lh| + 1
    requires Upto(a, b, CommitWrites(g, a.shown, lh), k)
    requires b.shown[HeadSector(g)] == HeadBlock(a.shown[HeadSector(g)], lh)
    requires Put(b, c, HeadSector(g), HeadBlock(b.shown[HeadSector(g)], []))
    ensures Upto(a, c, CommitWrites(g, a.shown, lh), k + 1)
  {
    var cw := CommitWrites(g, a.shown, lh);
    assert cw[k] == CommitWrite(g, a.shown, lh, k);
    UptoOne(a, b, c, cw, k);
  }

  // ---------- recovery ----------

  lemma RecoverDone(g: Geometry, lh: seq<u32>, a: Snap, b: Snap, c: Snap, ws: seq<Write>)
    requires HeadOk(g, a.disk) && a.shown == a.disk && lh == Entries(a.disk[HeadSector(g)])
    requires Homed(g, lh, a, b, ws) && |ws| == |lh|
    requires Put(b, c, HeadSector(g), HeadBlock(b.shown[HeadSector(g)], []))
    ensures Did(a, c, RecoverWrites(g, a.disk))
  {
    assert InLog(g, HeadSector(g));
    var w := Write(HeadSector(g), HeadBlock(b.shown[HeadSector(g)], []));
    DidOne(a, b, c, ws, w.sector, w.data);
    assert ws + [w] == RecoverWrites(g, a.disk);
  }
}
