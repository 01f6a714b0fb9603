/** kern/log.c on top of the buffer cache, one process at a time: every sector write of commit
    and recovery, in order. */
module Log {
  import opened Bytes
  import opened Device
  import opened Limits
  import opened Cache
  import opened Redo
  import opened LogRun

  // ---------- reading two blocks and writing one out ----------

  // Nobody's buffer is lost: references are as before, spare buffers stay spare, and the
  // dirty buffers of other sectors are untouched.
  ghost predicate Settled(t: Table, u: Table, written: nat) {
    && |t.bufs| == |u.bufs|
    && (forall i | 0 <= i < |t.bufs| :: u.bufs[i].refcnt == t.bufs[i].refcnt)
    && (forall i | 0 <= i < |t.bufs| && Recyclable(t.bufs[i]) :: Recyclable(u.bufs[i]))
    && (forall i | 0 <= i < |t.bufs| && t.bufs[i].dirty && t.bufs[i].blockno != written ::
          u.bufs[i] == t.bufs[i])
  }

  ghost predicate Spare(t: Table) {
    exists i :: 0 <= i < |t.bufs| && Recyclable(t.bufs[i])
  }

  // As after boot: no buffer is held or dirty.
  ghost predicate AllFree(t: Table) {
    forall i | 0 <= i < |t.bufs| :: Recyclable(t.bufs[i])
  }

  // Block s is in a buffer that cannot be recycled.
  ghost predicate Pinned(t: Table, s: nat) {
    s in t.slot && t.slot[s] < |t.bufs| && t.bufs[t.slot[s]].dirty
  }

  // Buffers m and n were handed out, starting from table t.
  ghost predicate PairLoaded(t: Table, u: Table, p: nat, q: nat, m: nat, n: nat) {
    && TableOk(t) && TableOk(u) && p < |t.disk| && q < |t.disk|
    && m < NBUF && n < NBUF && m != n
    && u.disk == t.disk && u.dev == t.dev && u.bufs == t.bufs[m := u.bufs[m]][n := u.bufs[n]]
    && SameView(t, u)
    && Taken1(t.bufs[m], u.bufs[m], t.disk) && Taken1(t.bufs[n], u.bufs[n], t.disk)
    && u.bufs[m].blockno == p && u.bufs[m].data == View(t, p)
    && u.bufs[n].blockno == q && u.bufs[n].data == View(t, q)
  }

  ghost predicate Taken1(a: Buf, c: Buf, disk: Disk) {
    && c.dev != 0 && c.valid && c.blockno < |disk|
    && c.refcnt == a.refcnt + 1 && (a.refcnt > 0 ==> c.blockno == a.blockno)
    && (a.dirty ==> c == a.(refcnt := a.refcnt + 1))
    && (!a.dirty ==> !c.dirty)
    && (Recyclable(a) ==> c.data == disk[c.blockno])
  }

  // Buffer n was handed out for block s.
  ghost predicate OneLoaded(t: Table, u: Table, s: nat, n: nat) {
    && TableOk(t) && TableOk(u) && s < |t.disk| && n < NBUF
    && u.disk == t.disk && u.dev == t.dev && u.bufs == t.bufs[n := u.bufs[n]]
    && SameView(t, u)
    && Taken1(t.bufs[n], u.bufs[n], t.disk)
    && u.bufs[n].blockno == s && u.bufs[n].data == View(t, s)
  }

  lemma LoadTakes(t: Table, u: Table, stamp: seq<nat>, s: nat, n: nat)
    requires Chosen(t, stamp, s, Some(n)) && Loaded(t, u, s, n)
    ensures OneLoaded(t, u, s, n)
    ensures forall x | Pinned(t, x) :: Pinned(u, x)
  {
    forall x | Pinned(t, x)
      ensures Pinned(u, x)
    {
      assert t.bufs[t.slot[x]].blockno == x;
    }
  }

  lemma LoadBoth(t: Table, u: Table, w: Table, p: nat, q: nat, m: nat, n: nat)
    requires p != q
    requires OneLoaded(t, u, p, m) && OneLoaded(u, w, q, n)
    ensures PairLoaded(t, w, p, q, m, n)
  {
    assert u.slot[u.bufs[m].blockno] == m;
    assert w.slot[w.bufs[n].blockno] == n;
    assert u.bufs[m].refcnt > 0;
  }

  // The table after memmove(d, s), brelse(s), bwrite(d), brelse(d).
  ghost function Moved(t: Table, d: nat, s: nat): Table
    requires d < |t.bufs| && s < |t.bufs| && d != s && t.bufs[d].refcnt > 0 && t.bufs[s].refcnt > 0
    requires t.bufs[d].blockno < |t.disk|
  {
    Flushed(Overwritten(t, d, s), d)
  }

  ghost function Overwritten(t: Table, d: nat, s: nat): Table
    requires d < |t.bufs| && s < |t.bufs| && d != s && t.bufs[d].refcnt > 0 && t.bufs[s].refcnt > 0
  {
    t.(bufs := t.bufs[d := t.bufs[d].(data := t.bufs[s].data)][s := t.bufs[s].(refcnt := t.bufs[s].refcnt - 1)])
  }

  ghost function Flushed(t: Table, d: nat): Table
    requires d < |t.bufs| && t.bufs[d].refcnt > 0 && t.bufs[d].blockno < |t.disk|
  {
    t.(disk := t.disk[t.bufs[d].blockno := t.bufs[d].data],
       bufs := t.bufs[d := t.bufs[d].(valid := true, dirty := false, refcnt := t.bufs[d].refcnt - 1)])
  }

  // What bread shows, sector by sector.
  ghost function Shown(t: Table): (v: Disk)
    requires TableOk(t)
    ensures |v| == |t.disk| && forall s | 0 <= s < |v| :: v[s] == View(t, s)
  {
    seq(|t.disk|, s requires 0 <= s < |t.disk| => View(t, s))
  }

  // Exactly sector w now shows x.
  ghost predicate Shows(t: Table, u: Table, w: nat, x: Block) {
    TableOk(t) && TableOk(u) && w < |t.disk| && Shown(u) == Shown(t)[w := x]
  }

  lemma MoveShows(t: Table, d: nat, s: nat)
    requires TableOk(t) && d < NBUF && s < NBUF && d != s && t.bufs[d].refcnt > 0 && t.bufs[s].refcnt > 0
    requires t.bufs[d].dev != 0 && t.bufs[d].valid && t.bufs[d].blockno < |t.disk| && TableOk(Moved(t, d, s))
    ensures Shows(t, Moved(t, d, s), t.bufs[d].blockno, t.bufs[s].data)
  {
    var u := Moved(t, d, s);
    var w := t.bufs[d].blockno;
    assert t.slot[w] == d;
    forall x | 0 <= x < |t.disk|
      ensures View(u, x) == if x == w then t.bufs[s].data else View(t, x)
    {
      if x in t.slot && x != w {
        assert t.bufs[t.slot[x]].blockno == x;
      }
    }
  }

  lemma MoveSettles(t: Table, u: Table, p: nat, q: nat, d: nat, s: nat)
    requires PairLoaded(t, u, p, q, d, s) || PairLoaded(t, u, p, q, s, d)
    ensures Settled(t, Moved(u, d, s), u.bufs[d].blockno)
  {
    hide SameView, Indexed, Coherent;
  }

  // What the two loaded buffers are like.
  lemma PairReady(t: Table, u: Table, p: nat, q: nat, d: nat, s: nat)
    requires PairLoaded(t, u, p, q, d, s) || PairLoaded(t, u, p, q, s, d)
    ensures TableOk(t) && TableOk(u) && d < NBUF && s < NBUF && d != s && u.disk == t.disk && u.dev == t.dev
    ensures forall i | i == d || i == s ::
              u.bufs[i].refcnt > 0 && u.bufs[i].dev != 0 && u.bufs[i].valid && u.bufs[i].blockno < |u.disk|
    ensures u.bufs[s].refcnt == 1 && !u.bufs[s].dirty ==> u.bufs[s].data == u.disk[u.bufs[s].blockno]
    ensures Shown(u) == Shown(t)
  {
    assert forall x | 0 <= x < |t.disk| :: View(u, x) == View(t, x);
  }

  // Enough buffers for a commit: one to spare, and the blocks still to be copied pinned.
  ghost predicate Roomy(g: Geometry, lh: seq<u32>, t: Table, i: nat) {
    Spare(t) && forall k | i <= k < |lh| :: Pinned(t, Home(g, lh[k]))
  }

  lemma StillRoomy(g: Geometry, lh: seq<u32>, t: Table, u: Table, w: nat, i: nat)
    requires TableOk(t) && TableOk(u) && Settled(t, u, w) && Roomy(g, lh, t, i) && u.dev == t.dev
    requires forall k | i <= k < |lh| :: Home(g, lh[k]) != w
    ensures Roomy(g, lh, u, i)
  {
    forall k | i <= k < |lh|
      ensures Pinned(u, Home(g, lh[k]))
    {
      assert Pinned(t, Home(g, lh[k]));
      var j := t.slot[Home(g, lh[k])];
      assert u.bufs[j] == t.bufs[j] && u.slot[u.bufs[j].blockno] == j;
    }
    var i :| 0 <= i < |t.bufs| && Recyclable(t.bufs[i]);
    assert Recyclable(u.bufs[i]);
  }

  // Buffer b of u, holding block s, was given new contents, written out and let go.
  lemma StoreWrites(t: Table, u: Table, s: nat, b: nat, x: Block)
    requires OneLoaded(t, u, s, b)
    requires TableOk(Flushed(u.(bufs := u.bufs[b := u.bufs[b].(data := x)]), b))
    ensures var w := Flushed(u.(bufs := u.bufs[b := u.bufs[b].(data := x)]), b);
            w.disk == t.disk[s := x] && w.dev == t.dev && Settled(t, w, s) && Shows(t, w, s, x)
  {
    var w := Flushed(u.(bufs := u.bufs[b := u.bufs[b].(data := x)]), b);
    assert u.slot[s] == b;
    forall y | 0 <= y < |t.disk|
      ensures View(w, y) == if y == s then x else View(t, y)
    {
      if y in u.slot && y != s {
        assert u.bufs[u.slot[y]].blockno == y;
      }
    }
  }

  lemma FreeShows(t: Table)
    requires TableOk(t) && AllFree(t)
    ensures forall s | 0 <= s < |t.disk| :: View(t, s) == t.disk[s]
  {
    forall s | 0 <= s < |t.disk|
      ensures View(t, s) == t.disk[s]
    {
      if s in t.slot {
        assert Recyclable(t.bufs[t.slot[s]]);
      }
    }
  }

  // Buffer b was handed out and released unchanged.
  lemma ReleaseShows(t: Table, u: Table, s: nat, b: nat)
    requires OneLoaded(t, u, s, b)
    requires TableOk(u.(bufs := u.bufs[b := u.bufs[b].(refcnt := u.bufs[b].refcnt - 1)]))
    ensures var w := u.(bufs := u.bufs[b := u.bufs[b].(refcnt := u.bufs[b].refcnt - 1)]);
            SameView(t, w) && (AllFree(t) ==> AllFree(w))
  {
    var w := u.(bufs := u.bufs[b := u.bufs[b].(refcnt := u.bufs[b].refcnt - 1)]);
    assert SameView(u, w);
  }

  ghost function SnapOf(t: Table, trace: seq<Write>): Snap
    requires TableOk(t)
  {
    Snap(Shown(t), t.disk, trace)
  }

  // One sector write and what it leaves of the buffers.
  ghost predicate Wrote(t: Table, tr: seq<Write>, u: Table, tr': seq<Write>, w: nat, x: Block) {
    && TableOk(t) && TableOk(u) && u.dev == t.dev
    && Put(SnapOf(t, tr), SnapOf(u, tr'), w, x)
    && Settled(t, u, w)
  }

  // ---------- when bget has no buffer for a commit ----------

  ghost predicate NoRepeat(a: seq<nat>) {
    forall i, j | 0 <= i < j < |a| :: a[i] != a[j]
  }

  // Distinct numbers from a list are no more than the list is long.
  lemma {:induction false} Crowd(a: seq<nat>, b: seq<nat>)
    requires NoRepeat(a) && forall i | 0 <= i < |a| :: a[i] in b
    ensures |a| <= |b|
  {
    if a != [] {
      var k :| 0 <= k < |b| && b[k] == a[0];
      var c := b[..k] + b[k + 1..];
      forall i | 0 <= i < |a[1..]|
        ensures a[1..][i] in c
      {
        var j :| 0 <= j < |b| && b[j] == a[i + 1];
        assert c[if j < k then j else j - 1] == b[j];
      }
      Crowd(a[1..], c);
    }
  }

  ghost function Homes(g: Geometry, lh: seq<u32>): seq<nat> {
    seq(|lh|, k requires 0 <= k < |lh| => Home(g, lh[k]))
  }

  // As end_op leaves the cache to commit when no process is inside bread..brelse: nobody holds a
  // buffer, and the dirty ones are exactly those of the recorded blocks.
  ghost predicate Quiet(g: Geometry, lh: seq<u32>, t: Table) {
    && (forall i | 0 <= i < |t.bufs| :: t.bufs[i].refcnt == 0)
    && (forall i | 0 <= i < |t.bufs| && t.bufs[i].dirty :: t.bufs[i].blockno in Homes(g, lh))
    && (forall k | 0 <= k < |lh| :: Pinned(t, Home(g, lh[k])))
  }

  // No buffer can be recycled and none holds a sector of the log.
  ghost predicate Jammed(g: Geometry, t: Table) {
    !Spare(t) && forall s | s in t.slot :: !InLog(g, s)
  }

  lemma QuietRoomy(g: Geometry, lh: seq<u32>, t: Table)
    requires TableOk(t) && Quiet(g, lh, t) && |lh| < NBUF
    ensures Roomy(g, lh, t, 0)
  {
    if forall i | 0 <= i < NBUF :: t.bufs[i].dirty {
      var a := seq(NBUF, i requires 0 <= i < NBUF => t.bufs[i].blockno);
      forall i, j | 0 <= i < j < NBUF
        ensures a[i] != a[j]
      {
        assert t.slot[t.bufs[i].blockno] == i && t.slot[t.bufs[j].blockno] == j;
      }
      Crowd(a, Homes(g, lh));
    } else {
      var i :| 0 <= i < NBUF && !t.bufs[i].dirty;
      assert Recyclable(t.bufs[i]);
    }
  }

  ghost function SlotFor(t: Table, s: nat): nat {
    if s in t.slot then t.slot[s] else NBUF
  }

  lemma QuietJammed(g: Geometry, lh: seq<u32>, t: Table)
    requires TableOk(t) && Quiet(g, lh, t) && |lh| == NBUF && Placed(g, lh, |t.disk|)
    ensures Jammed(g, t)
  {
    var a := seq(NBUF, k requires 0 <= k < NBUF => SlotFor(t, Home(g, lh[k])));
    assert forall k | 0 <= k < NBUF :: Pinned(t, Home(g, lh[k])) && t.bufs[a[k]].blockno == Home(g, lh[k]);
    forall j, k | 0 <= j < k < NBUF
      ensures a[j] != a[k]
    {
      NoRepeats(g, lh, |t.disk|, j, k);
    }
    forall i: nat | i < NBUF
      ensures t.bufs[i].dirty && !InLog(g, t.bufs[i].blockno)
    {
      if i !in a {
        var b := seq(NBUF, j requires 0 <= j < NBUF => j);
        assert b[i] == i && forall k | 0 <= k < NBUF :: b[a[k]] == a[k];
        Crowd(a + [i], b);
      }
      var k :| 0 <= k < NBUF && a[k] == i;
    }
  }

  lemma CommitFits(g: Geometry, lh: seq<u32>, t: Table)
    requires TableOk(t) && Quiet(g, lh, t) && Placed(g, lh, |t.disk|)
    ensures if |lh| < NBUF then Roomy(g, lh, t, 0) else Jammed(g, t)
  {
    if |lh| < NBUF {
      QuietRoomy(g, lh, t);
    } else {
      QuietJammed(g, lh, t);
    }
  }

  lemma LaterDiffer(g: Geometry, lh: seq<u32>, n: nat, i: nat)
    requires Placed(g, lh, n) && i < |lh|
    ensures forall k | i + 1 <= k < |lh| :: Home(g, lh[k]) != Home(g, lh[i])
  {
    forall k | i + 1 <= k < |lh|
      ensures Home(g, lh[k]) != Home(g, lh[i])
    {
      NoRepeats(g, lh, n, i, k);
    }
  }

  class Log {
    const bc: BufferCache
    const start: nat
    const size: nat
    var outstanding: int
    var n: nat
    const block: array<u32>

    // initlog up to recovery; start and size come from the superblock.
    constructor (bc: BufferCache, start: nat, size: nat)
      requires bc.Valid()
      ensures Valid() && this.bc == bc && this.start == start && this.size == size
      ensures n == 0 && outstanding == 0 && fresh(block)
    {
      this.bc, this.start, this.size := bc, start, size;
      n, outstanding := 0, 0;
      block := new u32[LOGSIZE](_ => 0);
    }

    ghost function G(): Geometry {
      Geometry(bc.lba, start, if size == 0 then 0 else size - 1)
    }

    ghost function Lh(): seq<u32>
      reads this, block
      requires n <= block.Length
    {
      block[..n]
    }

    ghost predicate Valid()
      reads this, bc, bc.bufs, bc.next, bc.prev, block
    {
      bc.Valid() && block.Length == LOGSIZE && n <= LOGSIZE
    }

    ghost function S(): Snap
      requires TableOk(bc.T())
      reads bc, bc.bufs
    {
      SnapOf(bc.T(), bc.trace)
    }

    // One bread of a copying loop's body.
    method ReadOne(p: nat) returns (r: Option<nat>)
      requires bc.Valid() && p + bc.lba < |bc.disk|
      modifies bc`slot, bc.bufs
      ensures bc.Valid()
      ensures r.Some? ==> OneLoaded(old(bc.T()), bc.T(), p + bc.lba, r.value)
      ensures r.Some? ==> forall x | Pinned(old(bc.T()), x) :: Pinned(bc.T(), x)
      ensures r == None <==> !Spare(old(bc.T())) && p + bc.lba !in old(bc.T()).slot
      ensures r == None ==> bc.T() == old(bc.T())
    {
      ghost var t := bc.T();
      r := bc.Bread(p);
      if r.Some? {
        LoadTakes(t, bc.T(), bc.stamp, p + bc.lba, r.value);
      }
    }

    // The first two lines of a copying loop's body; None is bget's panic.
    method ReadPair(p: nat, q: nat) returns (r: Option<(nat, nat)>)
      requires bc.Valid() && p != q && p + bc.lba < |bc.disk| && q + bc.lba < |bc.disk|
      modifies bc`slot, bc.bufs
      ensures bc.Valid()
      ensures r.Some? ==> PairLoaded(old(bc.T()), bc.T(), p + bc.lba, q + bc.lba, r.value.0, r.value.1)
      ensures Spare(old(bc.T())) && Pinned(old(bc.T()), q + bc.lba) ==> r.Some?
      ensures AllFree(old(bc.T())) ==> r.Some?
      ensures !Spare(old(bc.T())) && p + bc.lba !in old(bc.T()).slot ==> r == None
    {
      hide SameView, Indexed, Coherent;
      ghost var t := bc.T();
      assert AllFree(t) ==> Recyclable(t.bufs[0]) && Recyclable(t.bufs[1]);
      var m := ReadOne(p);
      if m == None { return None; }
      ghost var u := bc.T();
      assert AllFree(t) ==> Recyclable(u.bufs[if m.value == 0 then 1 else 0]);
      var n := ReadOne(q);
      if n == None { return None; }
      LoadBoth(t, u, bc.T(), p + bc.lba, q + bc.lba, m.value, n.value);
      r := Some((m.value, n.value));
    }

    // memmove(d->data, s->data) and brelse(s).
    method Overwrite(d: nat, s: nat)
      requires bc.Valid() && d < NBUF && s < NBUF && d != s
      requires bc.bufs[d].refcnt > 0 && bc.bufs[s].refcnt > 0 && bc.bufs[d].valid
      requires bc.bufs[s].refcnt == 1 && bc.bufs[s].valid && !bc.bufs[s].dirty ==>
                 bc.bufs[s].blockno < |bc.disk| && bc.bufs[s].data == bc.disk[bc.bufs[s].blockno]
      modifies bc`ring, bc`stamp, bc`clock, bc.bufs, bc.next, bc.prev
      ensures bc.Valid() && bc.T() == Overwritten(old(bc.T()), d, s)
    {
      bc.Store(d, bc.bufs[s].data);
      bc.Brelse(s);
    }

    // bwrite(d) and brelse(d).
    method Flush(d: nat)
      requires bc.Valid() && d < NBUF && bc.bufs[d].refcnt > 0 && bc.bufs[d].blockno < |bc.disk|
      modifies bc`disk, bc`trace, bc`ring, bc`stamp, bc`clock, bc.bufs, bc.next, bc.prev
      ensures bc.Valid() && bc.T() == Flushed(old(bc.T()), d)
      ensures bc.trace == old(bc.trace) + [Write(old(bc.bufs[d].blockno), old(bc.bufs[d].data))]
    {
      bc.Bwrite(d);
      bc.Brelse(d);
    }

    // The rest of a copying loop's body: buffer d takes the contents of s and is written out.
    method MoveOut(d: nat, s: nat, ghost t: Table, ghost p: nat, ghost q: nat)
      requires bc.Valid()
      requires PairLoaded(t, bc.T(), p, q, d, s) || PairLoaded(t, bc.T(), p, q, s, d)
      modifies bc`disk, bc`trace, bc`ring, bc`stamp, bc`clock, bc.bufs, bc.next, bc.prev
      ensures bc.Valid()
      ensures Wrote(t, old(bc.trace), bc.T(), bc.trace, old(bc.bufs[d].blockno), old(bc.bufs[s].data))
    {
      ghost var u := bc.T();
      PairReady(t, u, p, q, d, s);
      MoveSettles(t, u, p, q, d, s);
      hide PairLoaded, Settled, TableOk, Shown;
      Overwrite(d, s);
      Flush(d);
      MoveShows(u, d, s);
    }

    // One pass of write_log's loop; false is bget's panic.
    method WriteLogBlock(i: nat) returns (ok: bool)
      requires Valid() && i < n && Placed(G(), Lh(), |bc.disk|)
      modifies bc, bc.bufs, bc.next, bc.prev
      ensures Valid()
      ensures !ok ==> bc.disk == old(bc.disk) && bc.trace == old(bc.trace)
      ensures ok ==> Wrote(old(bc.T()), old(bc.trace), bc.T(), bc.trace,
                           LogSector(G(), i), old(S()).shown[Home(G(), Lh()[i])])
      ensures Spare(old(bc.T())) && Pinned(old(bc.T()), Home(G(), Lh()[i])) ==> ok
      ensures Jammed(G(), old(bc.T())) ==> !ok
    {
      hide Wrote, Indexed, Coherent, SameView;
      ghost var t := bc.T();
      assert Lh()[i] == block[i];
      assert InLog(G(), LogSector(G(), i));
      var r := ReadPair(start + i + 1, block[i]);
      if r == None { return false; }
      MoveOut(r.value.0, r.value.1, t, LogSector(G(), i), Home(G(), block[i]));
      ok := true;
    }

    // One pass of install_trans's loop.
    method InstallBlock(i: nat) returns (ok: bool)
      requires Valid() && i < n && Placed(G(), Lh(), |bc.disk|)
      modifies bc, bc.bufs, bc.next, bc.prev
      ensures Valid()
      ensures !ok ==> bc.disk == old(bc.disk) && bc.trace == old(bc.trace)
      ensures ok ==> Wrote(old(bc.T()), old(bc.trace), bc.T(), bc.trace,
                           Home(G(), Lh()[i]), old(S()).shown[LogSector(G(), i)])
      ensures Spare(old(bc.T())) && Pinned(old(bc.T()), Home(G(), Lh()[i])) ==> ok
      ensures AllFree(old(bc.T())) ==> ok && AllFree(bc.T())
    {
      hide Indexed, Coherent, SameView;
      ghost var t := bc.T();
      assert Lh()[i] == block[i];
      var r := ReadPair(start + i + 1, block[i]);
      if r == None { return false; }
      MoveOut(r.value.1, r.value.0, t, LogSector(G(), i), Home(G(), block[i]));
      ok := true;
    }

    // write_log: the dirty buffers go to the log, in order. ws are its sector writes, all n of
    // them unless bget panicked.
    method WriteLog() returns (ok: bool, ghost ws: seq<Write>)
      requires Valid() && Placed(G(), Lh(), |bc.disk|)
      modifies bc, bc.bufs, bc.next, bc.prev
      ensures Valid() && |ws| <= n && Did(old(S()), S(), ws)
      ensures forall k | 0 <= k < |ws| :: ws[k] == Write(LogSector(G(), k), old(S()).shown[Home(G(), Lh()[k])])
      ensures ok ==> |ws| == n && Logged(G(), Lh(), old(S()), S(), ws)
      ensures Roomy(G(), Lh(), old(bc.T()), 0) ==> ok && Roomy(G(), Lh(), bc.T(), 0)
      ensures Jammed(G(), old(bc.T())) && n > 0 ==> !ok && ws == []
    {
      hide NoneTwice, Settled, TableOk, Logged;
      ghost var t0, a, g, lh := bc.T(), S(), G(), Lh();
      ws := [];
      LoggedNone(g, lh, a);
      for i := 0 to n
        invariant Valid() && lh == Lh() && Placed(g, lh, |bc.disk|)
        invariant |ws| == i && Logged(g, lh, a, S(), ws)
        invariant Roomy(g, lh, t0, 0) ==> Roomy(g, lh, bc.T(), 0)
        invariant Jammed(g, t0) ==> i == 0 && bc.T() == t0
      {
        ghost var t, b := bc.T(), S();
        assert Roomy(g, lh, t, 0) ==> Pinned(t, Home(g, lh[i]));
        ok := WriteLogBlock(i);
        if !ok {
          LoggedWrites(g, lh, a, b, ws);
          return;
        }
        LoggedOne(g, lh, a, b, S(), ws, i);
        if Roomy(g, lh, t, 0) {
          StillRoomy(g, lh, t, bc.T(), LogSector(g, i), 0);
        }
        ws := ws + [Write(LogSector(g, i), a.shown[Home(g, lh[i])])];
      }
      LoggedWrites(g, lh, a, S(), ws);
      ok := true;
    }

    // install_trans: the logged blocks go to their home sectors, in order.
    method InstallTrans() returns (ok: bool, ghost ws: seq<Write>)
      requires Valid() && Placed(G(), Lh(), |bc.disk|)
      modifies bc, bc.bufs, bc.next, bc.prev
      ensures Valid() && |ws| <= n && Did(old(S()), S(), ws)
      ensures forall k | 0 <= k < |ws| :: ws[k] == Write(Home(G(), Lh()[k]), old(S()).shown[LogSector(G(), k)])
      ensures ok ==> |ws| == n && Homed(G(), Lh(), old(S()), S(), ws)
      ensures Roomy(G(), Lh(), old(bc.T()), 0) ==> ok && Spare(bc.T())
      ensures AllFree(old(bc.T())) ==> ok && AllFree(bc.T())
    {
      hide NoneTwice, Settled, TableOk;
      ghost var t0, a, g, lh := bc.T(), S(), G(), Lh();
      ws := [];
      for i := 0 to n
        invariant Valid() && lh == Lh() && Placed(g, lh, |bc.disk|)
        invariant |ws| == i && Homed(g, lh, a, S(), ws)
        invariant Roomy(g, lh, t0, 0) ==> Roomy(g, lh, bc.T(), i)
        invariant AllFree(t0) ==> AllFree(bc.T())
      {
        ghost var t, b := bc.T(), S();
        assert Roomy(g, lh, t, i) ==> Pinned(t, Home(g, lh[i]));
        ok := InstallBlock(i);
        if !ok { return; }
        HomedOne(g, lh, a, b, S(), ws, i);
        if Roomy(g, lh, t, i) {
          LaterDiffer(g, lh, |t.disk|, i);
          StillRoomy(g, lh, t, bc.T(), Home(g, lh[i]), i + 1);
        }
        ws := ws + [Write(Home(g, lh[i]), a.shown[LogSector(g, i)])];
      }
      ok := true;
    }

    // New contents for buffer b, which holds block s: bwrite(b) and brelse(b).
    method Rewrite(b: nat, data: Block, ghost t: Table, ghost s: nat)
      requires bc.Valid() && OneLoaded(t, bc.T(), s, b)
      modifies bc`disk, bc`trace, bc`ring, bc`stamp, bc`clock, bc.bufs, bc.next, bc.prev
      ensures bc.Valid() && Wrote(t, old(bc.trace), bc.T(), bc.trace, s, data)
    {
      ghost var u := bc.T();
      bc.Store(b, data);
      Flush(b);
      StoreWrites(t, u, s, b, data);
    }

    // The copying loop of write_head.
    method HeadData(before: Block) returns (data: Block)
      requires block.Length == LOGSIZE && n <= LOGSIZE
      ensures data == HeadBlock(before, Lh())
    {
      data := PutWord(before, 0, n);
      for i := 0 to n
        invariant data == PutEntries(PutWord(before, 0, n), Lh(), i)
      {
        data := PutWord(data, i + 1, block[i]);
      }
    }

    // write_head: the number of blocks and their numbers go to the header sector.
    method WriteHead() returns (ok: bool)
      requires Valid() && Room(G(), |bc.disk|)
      modifies bc, bc.bufs, bc.next, bc.prev
      ensures Valid()
      ensures !ok ==> bc.disk == old(bc.disk) && bc.trace == old(bc.trace)
      ensures ok ==> Wrote(old(bc.T()), old(bc.trace), bc.T(), bc.trace, HeadSector(G()),
                           HeadBlock(old(S()).shown[HeadSector(G())], Lh()))
      ensures Spare(old(bc.T())) ==> ok
    {
      ghost var t := bc.T();
      var r := ReadOne(start);
      if r == None { return false; }
      var b := r.value;
      var data := HeadData(bc.bufs[b].data);
      Rewrite(b, data, t, HeadSector(G()));
      ok := true;
    }

    /** commit: its sector writes are CommitWrites, in order; false if bget panicked after the first
        k of them. On a quiet cache that happens exactly if all NBUF buffers are pinned, and then at
        once. */
    method Commit() returns (ok: bool, ghost k: nat)
      requires Valid() && Placed(G(), Lh(), |bc.disk|)
      modifies this`n, bc, bc.bufs, bc.next, bc.prev
      ensures Valid()
      ensures Upto(old(S()), S(), CommitWrites(G(), old(S()).shown, old(Lh())), k)
      ensures ok ==> n == 0 && k == |CommitWrites(G(), old(S()).shown, old(Lh()))|
      ensures Roomy(G(), old(Lh()), old(bc.T()), 0) ==> ok
      ensures Quiet(G(), old(Lh()), old(bc.T())) ==> (ok <==> old(n) < NBUF) && (!ok ==> k == 0)
    {
      hide NoneTwice, Settled, TableOk, Jammed, Quiet;
      ghost var t0, a, g, lh := bc.T(), S(), G(), Lh();
      ok, k := true, 0;
      if Quiet(g, lh, t0) {
        CommitFits(g, lh, t0);
      }
      if n > 0 {
        ghost var ws;
        ok, ws := WriteLog();
        CommitLogs(g, lh, a, S(), ws);
        k := |ws|;
        if !ok { return; }
        assert Lh() == lh;
        ok, k := CommitHead(a, ws);
      }
    }

    // Commit from the writing of the header on.
    method CommitHead(ghost a: Snap, ghost ws: seq<Write>) returns (ok: bool, ghost k: nat)
      requires Valid() && n > 0 && Logged(G(), Lh(), a, S(), ws) && |ws| == n && |a.shown| == |bc.disk|
      modifies this`n, bc, bc.bufs, bc.next, bc.prev
      ensures Valid() && Upto(a, S(), CommitWrites(G(), a.shown, old(Lh())), k)
      ensures ok ==> n == 0 && k == 2 * old(n) + 2
      ensures Roomy(G(), old(Lh()), old(bc.T()), 0) ==> ok
    {
      hide NoneTwice, Settled, TableOk;
      ghost var t, b, g, lh := bc.T(), S(), G(), Lh();
      CommitLogs(g, lh, a, b, ws);
      k := |ws|;
      ok := WriteHead();
      if !ok { return; }
      CommitHeads(g, lh, a, b, S(), ws);
      if Roomy(g, lh, t, 0) {
        assert InLog(g, HeadSector(g));
        StillRoomy(g, lh, t, bc.T(), HeadSector(g), 0);
      }
      ok, k := CommitTail(a);
    }

    // The second half of commit, once the header is on the device.
    method CommitTail(ghost a: Snap) returns (ok: bool, ghost k: nat)
      requires Valid() && LogComplete(G(), Lh(), a, S()) && |bc.disk| == |a.shown|
      modifies this`n, bc, bc.bufs, bc.next, bc.prev
      ensures Valid() && Upto(a, S(), CommitWrites(G(), a.shown, old(Lh())), k)
      ensures ok ==> n == 0 && k == 2 * old(n) + 2
      ensures Roomy(G(), old(Lh()), old(bc.T()), 0) ==> ok
    {
      ghost var b, g, lh := S(), G(), Lh();
      ghost var ws;
      ok, ws := InstallTrans();
      k := |lh| + 1 + |ws|;
      CommitInstalls(g, lh, a, b, S(), ws, k);
      if !ok { return; }
      assert Lh() == lh && InLog(g, HeadSector(g));
      ok, k := ClearHead(a, k);
    }

    // The log is emptied in memory and on the device.
    method ClearHead(ghost a: Snap, ghost j: nat) returns (ok: bool, ghost k: nat)
      requires Valid() && n > 0 && Placed(G(), Lh(), |a.shown|) && |bc.disk| == |a.shown|
      requires j == 2 * n + 1 && Upto(a, S(), CommitWrites(G(), a.shown, Lh()), j)
      requires S().shown[HeadSector(G())] == HeadBlock(a.shown[HeadSector(G())], Lh())
      modifies this`n, bc, bc.bufs, bc.next, bc.prev
      ensures Valid() && n == 0
      ensures Upto(a, S(), CommitWrites(G(), a.shown, old(Lh())), k) && (ok ==> k == j + 1)
      ensures Spare(old(bc.T())) ==> ok
    {
      hide NoneTwice, TableOk, Settled, CommitWrites, HeadBlock;
      ghost var b, g, lh := S(), G(), Lh();
      n := 0;
      assert Lh() == [];
      ok := WriteHead();
      k := j;
      if ok {
        CommitClears(g, lh, a, b, S(), j);
        k := j + 1;
      }
    }

    // The copying loop of read_head.
    method CopyEntries(data: Block)
      requires block.Length == LOGSIZE && Word(data, 0) <= LOGSIZE
      modifies this`n, block
      ensures n <= LOGSIZE && Lh() == Entries(data)
    {
      n := Word(data, 0);
      for i := 0 to n
        invariant n == Word(data, 0)
        invariant forall k | 0 <= k < i :: block[k] == Word(data, k + 1)
      {
        block[i] := Word(data, i + 1);
      }
    }

    // read_head: the header sector becomes the header in memory; false is bget's panic.
    method ReadHead() returns (ok: bool)
      requires Valid() && Room(G(), |bc.disk|) && Word(S().shown[HeadSector(G())], 0) <= LOGSIZE
      modifies this`n, block, bc`slot, bc`ring, bc`stamp, bc`clock, bc.bufs, bc.next, bc.prev
      ensures Valid()
      ensures ok ==> Lh() == Entries(old(S()).shown[HeadSector(G())]) && S() == old(S())
      ensures AllFree(old(bc.T())) ==> ok && AllFree(bc.T())
    {
      hide Indexed, Coherent, SameView;
      ghost var t := bc.T();
      assert AllFree(t) ==> Recyclable(t.bufs[0]);
      var r := ReadOne(start);
      if r == None { return false; }
      CopyEntries(bc.bufs[r.value].data);
      LetGo(r.value, t, HeadSector(G()));
      ok := true;
    }

    // brelse(b) on a buffer that was only read.
    method LetGo(b: nat, ghost t: Table, ghost s: nat)
      requires bc.Valid() && OneLoaded(t, bc.T(), s, b)
      modifies bc`ring, bc`stamp, bc`clock, bc.bufs, bc.next, bc.prev
      ensures bc.Valid() && Shown(bc.T()) == Shown(t) && (AllFree(t) ==> AllFree(bc.T()))
    {
      hide Indexed, Coherent, SameView;
      ghost var u := bc.T();
      bc.Brelse(b);
      ReleaseShows(t, u, s, b);
      assert Shown(bc.T()) == Shown(t);
    }

    // recover_from_log, at boot.
    method RecoverFromLog() returns (ok: bool)
      requires Valid() && AllFree(bc.T()) && HeadOk(G(), bc.disk)
      modifies this`n, block, bc, bc.bufs, bc.next, bc.prev
      ensures Valid() && ok && n == 0 && AllFree(bc.T())
      ensures bc.trace == old(bc.trace) + RecoverWrites(G(), old(bc.disk))
      ensures bc.disk == Recovered(G(), old(bc.disk))
    {
      ghost var a, g := S(), G();
      FreeShows(bc.T());
      assert a.shown == a.disk;
      ok := ReadHead();
      ghost var lh, ws := Lh(), [];
      ok, ws := InstallTrans();
      ghost var b := S();
      assert Recyclable(bc.T().bufs[0]);
      n := 0;
      assert Lh() == [];
      ok := WriteHead();
      RecoverDone(g, lh, a, b, S(), ws);
    }

    // log_write on a held buffer: true is its panic. A block already recorded is absorbed.
    method LogWrite(b: nat) returns (panicked: bool)
      requires Valid() && b < NBUF && bc.bufs[b].refcnt > 0 && bc.bufs[b].valid
      requires bc.bufs[b].blockno < 0x1_0000_0000
      requires NoneTwice(Lh())
      modifies this`n, block, bc.bufs
      ensures Valid()
      ensures panicked <==> old(n) >= LOGSIZE || old(n) >= size - 1 || outstanding < 1
      ensures panicked ==> Lh() == old(Lh()) && bc.T() == old(bc.T())
      ensures !panicked ==>
                && var s := old(bc.bufs[b].blockno);
                && Lh() == (if s in old(Lh()) then old(Lh()) else old(Lh()) + [s])
                && bc.T() == old(bc.T()).(bufs := old(bc.bufs[..])[b := old(bc.bufs[b]).(dirty := true)])
                && Pinned(bc.T(), s)
      ensures NoneTwice(Lh())
    {
      hide NoneTwice, Linked, IsRing, ByRecency;
      if n >= LOGSIZE || n >= size - 1 || outstanding < 1 { return true; }
      var s := bc.bufs[b].blockno;
      assert bc.bufs[..][b].dev != 0;
      var i := 0;
      while i < n && block[i] != s
        invariant 0 <= i <= n && forall k | 0 <= k < i :: block[k] != s
      {
        i := i + 1;
      }
      if i == n {
        block[i] := s;
        n := n + 1;
        assert Lh() == old(Lh()) + [s];
        NoneTwiceMore(old(Lh()), s);
      } else {
        assert s == Lh()[i];
      }
      bc.bufs[b] := bc.bufs[b].(dirty := true);
      panicked := false;
    }
  }
}
