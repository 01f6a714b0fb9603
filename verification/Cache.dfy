/** The buffer cache (kern/bio.c): a fixed table of buffers threaded on an LRU ring. */
module Cache {
  import opened Bytes
  import opened Device
  import opened Limits

  datatype Buf = Buf(dev: nat, blockno: nat, valid: bool, dirty: bool, refcnt: nat, data: Block)

  // ---------- the doubly linked ring, with node NBUF as its head ----------

  ghost function Full(ring: seq<nat>): (f: seq<nat>)
    ensures |f| == |ring| + 2
  {
    [NBUF] + ring + [NBUF]
  }

  ghost predicate Distinct(ring: seq<nat>) {
    && (forall i | 0 <= i < |ring| :: ring[i] < NBUF)
    && (forall i, j | 0 <= i < j < |ring| :: ring[i] != ring[j])
  }

  // next and prev spell out ring in both directions.
  ghost predicate Linked(nx: seq<nat>, pv: seq<nat>, ring: seq<nat>) {
    && |nx| == NBUF + 1 && |pv| == NBUF + 1
    && Distinct(ring)
    && (forall i | 0 <= i <= |ring| :: nx[Full(ring)[i]] == Full(ring)[i + 1])
    && (forall i | 0 <= i <= |ring| :: pv[Full(ring)[i + 1]] == Full(ring)[i])
  }

  // A permutation of all the buffers.
  ghost predicate IsRing(ring: seq<nat>) {
    && Distinct(ring)
    && |ring| == NBUF
    && forall b: nat | b < NBUF :: b in ring
  }

  ghost function Push(nx: seq<nat>, pv: seq<nat>, b: nat): (r: (seq<nat>, seq<nat>))
    requires |nx| == NBUF + 1 && |pv| == NBUF + 1 && b < NBUF && nx[NBUF] <= NBUF
  {
    var nx1 := nx[b := nx[NBUF]];
    var pv1 := pv[b := NBUF];
    (nx1[NBUF := b], pv1[nx1[NBUF] := b])
  }

  lemma PushLinks(nx: seq<nat>, pv: seq<nat>, ring: seq<nat>, b: nat)
    requires Linked(nx, pv, ring) && b < NBUF && b !in ring
    ensures Full(ring)[1] == nx[NBUF]
    ensures nx[NBUF] <= NBUF
    ensures Linked(Push(nx, pv, b).0, Push(nx, pv, b).1, [b] + ring)
  {
    assert Full(ring)[0] == NBUF;
    assert nx[Full(ring)[0]] == Full(ring)[1];
    var f, g := Full(ring), Full([b] + ring);
    assert g == [NBUF, b] + f[1..];
    var (nx', pv') := Push(nx, pv, b);
    forall i | 0 <= i <= |ring| + 1
      ensures nx'[g[i]] == g[i + 1] && pv'[g[i + 1]] == g[i]
    {
      if i >= 2 {
        assert g[i] == f[i - 1] && g[i + 1] == f[i];
        assert nx[f[i - 1]] == f[i] && pv[f[i]] == f[i - 1];
      } else if i == 1 {
        assert g[2] == f[1];
      }
    }
  }

  ghost function Without(ring: seq<nat>, k: nat): seq<nat>
    requires k < |ring|
  {
    ring[..k] + ring[k + 1..]
  }

  lemma UnlinkLinks(nx: seq<nat>, pv: seq<nat>, ring: seq<nat>, k: nat)
    requires Linked(nx, pv, ring) && k < |ring|
    ensures nx[ring[k]] == Full(ring)[k + 2] && pv[ring[k]] == Full(ring)[k]
    ensures nx[ring[k]] <= NBUF && pv[ring[k]] <= NBUF
    ensures Linked(nx[pv[ring[k]] := nx[ring[k]]], pv[nx[ring[k]] := pv[ring[k]]], Without(ring, k))
  {
    var f, g := Full(ring), Full(Without(ring, k));
    var b := ring[k];
    assert f[k + 1] == b;
    assert nx[f[k + 1]] == f[k + 2] && pv[f[k + 1]] == f[k];
    assert g == f[..k + 1] + f[k + 2..];
    var nx', pv' := nx[pv[b] := nx[b]], pv[nx[b] := pv[b]];
    forall i | 0 <= i <= |ring| - 1
      ensures nx'[g[i]] == g[i + 1] && pv'[g[i + 1]] == g[i]
    {
      if i < k {
        assert g[i] == f[i] && g[i + 1] == f[i + 1];
        assert nx[f[i]] == f[i + 1] && pv[f[i + 1]] == f[i];
      } else if i > k {
        assert g[i] == f[i + 1] && g[i + 1] == f[i + 2];
        assert nx[f[i + 1]] == f[i + 2] && pv[f[i + 2]] == f[i + 1];
      }
    }
  }

  // The ring lists the buffers from the most to the least recently released.
  ghost predicate ByRecency(ring: seq<nat>, stamp: seq<nat>) {
    && |stamp| == NBUF
    && Distinct(ring)
    && forall i, j | 0 <= i < j < |ring| :: stamp[ring[i]] > stamp[ring[j]]
  }

  lemma FrontIsRing(ring: seq<nat>, k: nat)
    requires IsRing(ring) && k < NBUF
    ensures IsRing([ring[k]] + Without(ring, k))
  {
    var w := Without(ring, k);
    forall b: nat | b < NBUF
      ensures b in [ring[k]] + w
    {
      assert b in ring;
      var j :| 0 <= j < NBUF && ring[j] == b;
      assert j < k ==> w[j] == b;
      assert j > k ==> w[j - 1] == b;
    }
  }

  lemma FrontIsRecent(ring: seq<nat>, stamp: seq<nat>, clock: nat, k: nat)
    requires ByRecency(ring, stamp) && k < |ring|
    requires forall i | 0 <= i < |stamp| :: stamp[i] < clock
    ensures ByRecency([ring[k]] + Without(ring, k), stamp[ring[k] := clock])
  {
    var w, st := Without(ring, k), stamp[ring[k] := clock];
    forall i, j | 0 <= i < j < |w|
      ensures st[w[i]] > st[w[j]]
    {
      var x, y := if i < k then i else i + 1, if j < k then j else j + 1;
      assert w[i] == ring[x] && w[j] == ring[y];
    }
  }

  // ---------- the table ----------

  predicate Recyclable(b: Buf) {
    b.refcnt == 0 && !b.dirty
  }

  // A snapshot of the cache and its device; slot maps each cached sector to its buffer.
  datatype Table = Table(dev: nat, bufs: seq<Buf>, slot: map<nat, nat>, disk: Disk)

  // Assigned buffers are those slot names, so no two hold the same block.
  ghost predicate Indexed(t: Table) {
    && (forall s | s in t.slot ::
          t.slot[s] < |t.bufs| && t.bufs[t.slot[s]].dev == t.dev && t.bufs[t.slot[s]].blockno == s)
    && (forall i | 0 <= i < |t.bufs| && t.bufs[i].dev != 0 ::
          && t.bufs[i].dev == t.dev && t.bufs[i].blockno < |t.disk|
          && t.bufs[i].blockno in t.slot && t.slot[t.bufs[i].blockno] == i)
  }

  // Dirty buffers are valid, unassigned ones unused, and a buffer that nobody holds and
  // that is not dirty equals its sector.
  ghost predicate Coherent(t: Table) {
    forall i | 0 <= i < |t.bufs| ::
      var b := t.bufs[i];
      && (b.dirty ==> b.valid)
      && (b.dev == 0 ==> !b.valid && b.refcnt == 0)
      && (b.refcnt == 0 && b.valid && !b.dirty ==> b.blockno < |t.disk| && b.data == t.disk[b.blockno])
  }

  ghost predicate TableOk(t: Table) {
    t.dev != 0 && |t.bufs| == NBUF && Indexed(t) && Coherent(t)
  }

  // What bread hands out for sector s: the cached contents, else the device's.
  ghost function View(t: Table, s: nat): Block
    requires TableOk(t) && s < |t.disk|
  {
    if s in t.slot && t.bufs[t.slot[s]].valid then t.bufs[t.slot[s]].data else t.disk[s]
  }

  ghost predicate SameView(t: Table, u: Table)
    requires TableOk(t) && TableOk(u)
  {
    |u.disk| == |t.disk| && forall s | 0 <= s < |t.disk| :: View(u, s) == View(t, s)
  }

  /** Once assigned, no two buffers hold the same block of a device. */
  lemma UniqueIdentity(t: Table, i: nat, j: nat)
    requires TableOk(t) && i < NBUF && j < NBUF && t.bufs[i].dev != 0
    requires t.bufs[i].dev == t.bufs[j].dev && t.bufs[i].blockno == t.bufs[j].blockno
    ensures i == j
  {
    assert t.slot[t.bufs[i].blockno] == i;
    assert t.slot[t.bufs[j].blockno] == j;
  }

  // Buffer n of t reassigned to block s.
  ghost function Recycled(t: Table, n: nat, s: nat): Table
    requires n < |t.bufs|
  {
    var b := t.bufs[n];
    t.(bufs := t.bufs[n := Buf(t.dev, s, false, false, 1, b.data)],
       slot := (if b.dev == 0 then t.slot else t.slot - {b.blockno})[s := n])
  }

  // Which buffer bget hands out for block s: the one that holds it, else the least recently
  // released of the unreferenced clean ones; None if there is neither.
  ghost predicate Chosen(t: Table, stamp: seq<nat>, s: nat, r: Option<nat>) {
    match r
    case None => s !in t.slot && forall i | 0 <= i < |t.bufs| :: !Recyclable(t.bufs[i])
    case Some(n) =>
      && n < |t.bufs| == |stamp|
      && if s in t.slot then n == t.slot[s]
         else
           && Recyclable(t.bufs[n])
           && forall i | 0 <= i < |t.bufs| && Recyclable(t.bufs[i]) :: stamp[n] <= stamp[i]
  }

  // The table once buffer n has been handed out for block s.
  ghost function Taken(t: Table, s: nat, n: nat): Table
    requires n < |t.bufs|
  {
    if s in t.slot then t.(bufs := t.bufs[n := t.bufs[n].(refcnt := t.bufs[n].refcnt + 1)])
    else Recycled(t, n, s)
  }

  // Buffer n filled from the device if it was not valid (sd_rw).
  ghost function Filled(t: Table, n: nat): Table
    requires n < |t.bufs|
  {
    var b := t.bufs[n];
    if b.valid || |t.disk| <= b.blockno then t
    else t.(bufs := t.bufs[n := b.(data := t.disk[b.blockno], valid := true, dirty := false)])
  }

  lemma TakeKeeps(t: Table, stamp: seq<nat>, s: nat, n: nat)
    requires TableOk(t) && s < |t.disk| && Chosen(t, stamp, s, Some(n))
    ensures var u := Taken(t, s, n);
            && TableOk(u) && s in u.slot && u.slot[s] == n && SameView(t, u)
            && u.bufs[n].refcnt == (if s in t.slot then t.bufs[n].refcnt else 0) + 1
            && u.disk == t.disk && forall i | 0 <= i < NBUF && i != n :: u.bufs[i] == t.bufs[i]
  {
    var u := Taken(t, s, n);
    if s !in t.slot {
      var b := t.bufs[n];
      forall x | x in u.slot
        ensures u.slot[x] < NBUF && u.bufs[u.slot[x]].dev == u.dev && u.bufs[u.slot[x]].blockno == x
      {
        if x != s {
          assert t.bufs[t.slot[x]].blockno == x;
          assert t.slot[x] != n;
        }
      }
    }
  }

  lemma FillKeeps(t: Table, n: nat)
    requires TableOk(t) && n < NBUF && t.bufs[n].dev != 0 && t.bufs[n].refcnt > 0
    ensures TableOk(Filled(t, n)) && SameView(t, Filled(t, n))
  {
    assert t.slot[t.bufs[n].blockno] == n;
    var u := Filled(t, n);
    assert forall i | 0 <= i < NBUF :: u.bufs[i].blockno == t.bufs[i].blockno && u.bufs[i].dev == t.bufs[i].dev;
  }

  lemma WriteKeeps(t: Table, n: nat)
    requires TableOk(t) && n < NBUF && t.bufs[n].dev != 0 && t.bufs[n].refcnt > 0
    ensures TableOk(t.(disk := t.disk[t.bufs[n].blockno := t.bufs[n].data],
                       bufs := t.bufs[n := t.bufs[n].(valid := true, dirty := false)]))
  {
    forall i | 0 <= i < NBUF && i != n && t.bufs[i].dev != 0
      ensures t.bufs[i].blockno != t.bufs[n].blockno
    {
      assert t.slot[t.bufs[i].blockno] == i && t.slot[t.bufs[n].blockno] == n;
    }
  }

  // bread handed out buffer n with the contents of block s, and no view of any block changed.
  ghost predicate Loaded(t: Table, u: Table, s: nat, n: nat) {
    && TableOk(t) && TableOk(u) && s < |t.disk| && n < NBUF
    && u == Filled(Taken(t, s, n), n)
    && SameView(t, u)
    && s in u.slot && u.slot[s] == n
    && u.bufs[n].valid && u.bufs[n].data == View(t, s)
    && u.bufs[n].refcnt == (if s in t.slot then t.bufs[n].refcnt else 0) + 1
  }

  class BufferCache {
    const device: nat
    const lba: nat  // first sector of the file system's partition
    var disk: Disk
    const bufs: array<Buf>
    const next: array<nat>
    const prev: array<nat>
    ghost var slot: map<nat, nat>
    ghost var ring: seq<nat>
    ghost var stamp: seq<nat>  // when each buffer was last released
    ghost var clock: nat
    ghost var trace: seq<Write>  // every sector write so far

    ghost function T(): Table
      reads this, bufs
    {
      Table(device, bufs[..], slot, disk)
    }

    ghost predicate Links()
      reads this, next, prev
    {
      && next.Length == NBUF + 1 && prev.Length == NBUF + 1 && next != prev
      && Linked(next[..], prev[..], ring)
    }

    ghost predicate RingOk()
      reads this, next, prev
    {
      && Links() && IsRing(ring)
      && ByRecency(ring, stamp)
      && (forall i | 0 <= i < |stamp| :: stamp[i] < clock)
    }

    ghost predicate Valid()
      reads this, bufs, next, prev
    {
      && RingOk()
      && TableOk(T())
    }

    // binit: thread the buffers one after another onto the head of the ring.
    constructor (dev: nat, lba: nat, d: Disk)
      requires dev != 0
      ensures Valid() && device == dev && this.lba == lba && disk == d && trace == [] && slot == map[]
      ensures fresh(bufs) && fresh(next) && fresh(prev)
      ensures forall i | 0 <= i < NBUF :: Recyclable(bufs[i]) && !bufs[i].valid && ring[i] == NBUF - 1 - i
    {
      device := dev;
      this.lba := lba;
      disk := d;
      trace := [];
      slot := map[];
      bufs := new Buf[NBUF](_ => Buf(0, 0, false, false, 0, ZeroBlock()));
      next := new nat[NBUF + 1](_ => NBUF);
      prev := new nat[NBUF + 1](_ => NBUF);
      ring := [];
      stamp := seq(NBUF, i requires 0 <= i < NBUF => i);
      clock := NBUF;
      new;
      for b := 0 to NBUF
        modifies this`ring, next, prev
        invariant Links() && |ring| == b && forall i | 0 <= i < b :: ring[i] == b - 1 - i
      {
        PushFront(b);
      }
      forall b: nat | b < NBUF
        ensures b in ring
      {
        assert ring[NBUF - 1 - b] == b;
      }
    }

    // The first loop of bget: forward from the head, most recent first.
    method Lookup(blockno: nat) returns (r: Option<nat>)
      requires Valid()
      ensures r == if blockno in slot then Some(slot[blockno]) else None
    {
      assert blockno in slot ==> slot[blockno] in ring && bufs[..][slot[blockno]].blockno == blockno;
      ghost var k := 0;
      ghost var f := Full(ring);
      var b := next[NBUF];
      assert next[..][f[0]] == f[1];
      while b != NBUF
        invariant 0 <= k <= NBUF && b == f[k + 1]
        invariant forall i | 0 <= i < k :: !(bufs[ring[i]].dev == device && bufs[ring[i]].blockno == blockno)
        decreases NBUF - k
      {
        if bufs[b].dev == device && bufs[b].blockno == blockno {
          assert bufs[..][b].blockno == blockno;
          return Some(b);
        }
        assert next[..][f[k + 1]] == f[k + 2];
        b := next[b];
        k := k + 1;
      }
      return None;
    }

    // The second loop of bget: backward from the head, least recent first.
    method Victim() returns (r: Option<nat>)
      requires Valid()
      ensures r.None? ==> forall i: nat | i < NBUF :: !Recyclable(bufs[i])
      ensures r.Some? ==> r.value < NBUF && Recyclable(bufs[r.value])
      ensures r.Some? ==> forall i: nat | i < NBUF && Recyclable(bufs[i]) :: stamp[r.value] <= stamp[i]
    {
      ghost var k := NBUF;
      ghost var f := Full(ring);
      var b := prev[NBUF];
      assert prev[..][f[NBUF + 1]] == f[NBUF];
      while b != NBUF
        invariant 0 <= k <= NBUF && b == f[k]
        invariant forall i | k <= i < NBUF :: !Recyclable(bufs[ring[i]])
        decreases k
      {
        if bufs[b].refcnt == 0 && !bufs[b].dirty {
          forall i: nat | i < NBUF && Recyclable(bufs[i])
            ensures stamp[b] <= stamp[i]
          {
            assert i in ring && ring[k - 1] == b;
          }
          return Some(b);
        }
        assert prev[..][f[k]] == f[k - 1];
        b := prev[b];
        k := k - 1;
      }
      forall i: nat | i < NBUF
        ensures !Recyclable(bufs[i])
      {
        assert i in ring;
      }
      return None;
    }

    // Find or recycle a buffer for a block; None is the panic "no buffers".
    method Bget(blockno: nat) returns (r: Option<nat>)
      requires Valid() && blockno < |disk|
      modifies this`slot, bufs
      ensures Valid()
      ensures Chosen(old(T()), stamp, blockno, r)
      ensures T() == if r.Some? then Taken(old(T()), blockno, r.value) else old(T())
      ensures r.Some? ==> bufs[r.value].refcnt == (if blockno in old(slot) then old(bufs[r.value].refcnt) else 0) + 1
    {
      ghost var t := T();
      r := Lookup(blockno);
      if r.Some? {
        var b := r.value;
        TakeKeeps(t, stamp, blockno, b);
        bufs[b] := bufs[b].(refcnt := bufs[b].refcnt + 1);
        assert T() == Taken(t, blockno, b);
      } else {
        r := Victim();
        if r.Some? {
          var b := r.value;
          ghost var was := bufs[b];
          bufs[b] := Buf(device, blockno, false, false, 1, bufs[b].data);
          slot := (if was.dev == 0 then slot else slot - {was.blockno})[blockno := b];
          assert T() == Taken(t, blockno, b);
          TakeKeeps(t, stamp, blockno, b);
        }
      }
    }

    // A held buffer with the contents of the indicated block.
    method Bread(blockno: nat) returns (r: Option<nat>)
      requires Valid() && blockno + lba < |disk|
      modifies this`slot, bufs
      ensures Valid()
      ensures Chosen(old(T()), stamp, blockno + lba, r)
      ensures r.None? ==> T() == old(T())
      ensures r.Some? ==> Loaded(old(T()), T(), blockno + lba, r.value)
    {
      ghost var t := T();
      var s := blockno + lba;
      r := Bget(s);
      if r.Some? {
        var b := r.value;
        TakeKeeps(t, stamp, s, b);
        FillKeeps(Taken(t, s, b), b);
        if !bufs[b].valid {
          bufs[b] := bufs[b].(data := disk[bufs[b].blockno], valid := true, dirty := false);
        }
        assert T() == Filled(Taken(t, s, b), b);
      }
    }

    // Change the contents of a held buffer.
    method Store(b: nat, data: Block)
      requires Valid() && b < NBUF && bufs[b].refcnt > 0 && bufs[b].valid
      modifies bufs
      ensures Valid()
      ensures T() == old(T()).(bufs := old(bufs[..])[b := old(bufs[b]).(data := data)])
    {
      bufs[b] := bufs[b].(data := data);
    }

    // Write a held buffer to its sector.
    method Bwrite(b: nat)
      requires Valid() && b < NBUF && bufs[b].refcnt > 0
      modifies this`disk, this`trace, bufs
      ensures Valid()
      ensures old(bufs[b].blockno) < |old(disk)|
      ensures var w := Write(old(bufs[b].blockno), old(bufs[b].data));
              && trace == old(trace) + [w]
              && T() == old(T()).(disk := old(disk)[w.sector := w.data],
                                  bufs := old(bufs[..])[b := old(bufs[b]).(valid := true, dirty := false)])
    {
      assert bufs[..][b].dev != 0;
      ghost var t := T();
      bufs[b] := bufs[b].(dirty := true);
      disk := disk[bufs[b].blockno := bufs[b].data];
      trace := trace + [Write(bufs[b].blockno, bufs[b].data)];
      bufs[b] := bufs[b].(valid := true, dirty := false);
      WriteKeeps(t, b);
    }

    // Take ring element k out of the ring.
    method Unlink(b: nat, ghost k: nat)
      requires Links() && k < |ring| && ring[k] == b
      modifies this`ring, next, prev
      ensures Links() && ring == Without(old(ring), k)
    {
      UnlinkLinks(next[..], prev[..], ring, k);
      ghost var nx, pv := next[..], prev[..];
      prev[next[b]] := prev[b];
      next[prev[b]] := next[b];
      assert prev[..] == pv[nx[b] := pv[b]];
      assert next[..] == nx[pv[b] := nx[b]];
      ring := Without(ring, k);
    }

    // Link buffer b behind the head.
    method PushFront(b: nat)
      requires Links() && b < NBUF && b !in ring
      modifies this`ring, next, prev
      ensures Links() && ring == [b] + old(ring)
    {
      PushLinks(next[..], prev[..], ring, b);
      ghost var nx, pv := next[..], prev[..];
      next[b] := next[NBUF];
      prev[b] := NBUF;
      prev[next[NBUF]] := b;
      next[NBUF] := b;
      assert next[..] == Push(nx, pv, b).0 && prev[..] == Push(nx, pv, b).1;
      ring := [b] + ring;
    }

    // Unlink buffer b and link it again behind the head.
    method MakeFirst(b: nat)
      requires RingOk() && b < NBUF
      modifies this`ring, this`stamp, this`clock, next, prev
      ensures RingOk()
      ensures ring[0] == b && stamp == old(stamp)[b := old(clock)]
    {
      assert b in ring;
      ghost var k :| 0 <= k < NBUF && ring[k] == b;
      FrontIsRing(ring, k);
      FrontIsRecent(ring, stamp, clock, k);
      Unlink(b, k);
      PushFront(b);
      stamp := stamp[b := clock];
      clock := clock + 1;
    }

    // The holder leaves the buffer to someone else, pinned, or as the device has it.
    static predicate LetsGo(b: Buf, d: Disk) {
      b.refcnt == 1 && b.valid && !b.dirty ==> b.blockno < |d| && b.data == d[b.blockno]
    }

    // Let go of a buffer; the last holder moves it to the front of the ring.
    method Brelse(b: nat)
      requires Valid() && b < NBUF && bufs[b].refcnt > 0
      modifies this`ring, this`stamp, this`clock, bufs, next, prev
      ensures RingOk() && (LetsGo(old(bufs[b]), disk) ==> Valid())
      ensures T() == old(T()).(bufs := old(bufs[..])[b := old(bufs[b]).(refcnt := old(bufs[b]).refcnt - 1)])
      ensures bufs[b].refcnt > 0 ==> ring == old(ring) && stamp == old(stamp)
      ensures bufs[b].refcnt == 0 ==> ring[0] == b && stamp == old(stamp)[b := old(clock)]
    {
      bufs[b] := bufs[b].(refcnt := bufs[b].refcnt - 1);
      if bufs[b].refcnt == 0 {
        MakeFirst(b);
      }
    }
  }
}
