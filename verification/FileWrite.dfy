/** Writing an open file: chunks that each fit one operation's share of the log (kern/file.c). */
module FileWrite {
  import opened Bytes
  import opened Device
  import opened Limits
  import opened Sets
  import opened Layout
  import opened Volume
  import opened Fs
  import opened FsFile

  const CHUNK := (MAXOPBLOCKS - 4) / 2 * 512

  class File {
    const ip: Inode
    const writable: bool
    var off: nat

    constructor (ip: Inode, writable: bool)
      ensures this.ip == ip && this.writable == writable && off == 0
    {
      this.ip, this.writable, off := ip, writable, 0;
    }
  }

  // All files on the volume, as byte sequences.
  ghost predicate Files(sb: Super, v: Vol, cs: seq<seq<byte>>) {
    match v
    case Vol(_, inodes, _) =>
      && Shaped(sb, v) && |cs| == sb.ninodes
      && forall j: nat | j < sb.ninodes :: inodes[j].size <= MAXBYTES && cs[j] == Contents(v, j)
  }

  lemma FilesAfter(sb: Super, v0: Vol, v: Vol, own: map<nat, Slot>, i: nat, src: seq<byte>, off: nat, cs: seq<seq<byte>>)
    requires Files(sb, v0, cs) && WroteTo(sb, v0, v, own, i, src, off, |src|)
    ensures i < |cs| && off <= |cs[i]| && Files(sb, v, cs[i := Spliced(cs[i], off, src)])
  {
    forall j: nat | j < sb.ninodes
      ensures v.inodes[j].size <= MAXBYTES && cs[i := Spliced(cs[i], off, src)][j] == Contents(v, j)
    {
      WriteIsSplice(sb, v0, v, own, i, src, off, j);
    }
  }

  lemma SpliceTwice(c: seq<byte>, off: nat, a: seq<byte>, b: seq<byte>)
    requires off <= |c|
    ensures |Spliced(c, off, a)| >= off + |a|
    ensures Spliced(Spliced(c, off, a), off + |a|, b) == Spliced(c, off, a + b)
  {
    SplicedAt(c, off, a, 0);
  }

  // The first i bytes of addr have been written at off, all files having been cs.
  ghost predicate WrittenTo(sb: Super, v: Vol, own: map<nat, Slot>, cs: seq<seq<byte>>, ino: nat, off: nat, addr: seq<byte>, i: nat) {
    match v
    case Vol(_, inodes, _) =>
      && Sound(sb, v, own) && ino < sb.ninodes == |cs| && i <= |addr|
      && (if i == 0 then Files(sb, v, cs)
          else off <= |cs[ino]| && Files(sb, v, cs[ino := Spliced(cs[ino], off, addr[..i])]))
  }

  lemma WrittenMore(sb: Super, v0: Vol, own0: map<nat, Slot>, v: Vol, own: map<nat, Slot>, cs: seq<seq<byte>>, ino: nat,
                    off: nat, addr: seq<byte>, i: nat, n1: nat)
    requires WrittenTo(sb, v0, own0, cs, ino, off, addr, i) && 0 < n1 && i + n1 <= |addr|
    requires WroteTo(sb, v0, v, own, ino, addr[i..i + n1], off + i, n1)
    ensures WrittenTo(sb, v, own, cs, ino, off, addr, i + n1)
  {
    hide Sound, Contents;
    var src := addr[i..i + n1];
    assert addr[..i + n1] == addr[..i] + src;
    if i == 0 {
      FilesAfter(sb, v0, v, own, ino, src, off, cs);
    } else {
      var ds := cs[ino := Spliced(cs[ino], off, addr[..i])];
      FilesAfter(sb, v0, v, own, ino, src, off + i, ds);
      SpliceTwice(cs[ino], off, addr[..i], src);
      assert ds[ino := Spliced(ds[ino], off + i, src)] == cs[ino := Spliced(cs[ino], off, addr[..i + n1])];
    }
  }

  // How long the file is by then.
  lemma WrittenSize(sb: Super, v: Vol, own: map<nat, Slot>, cs: seq<seq<byte>>, ino: nat, off: nat, addr: seq<byte>, i: nat)
    requires WrittenTo(sb, v, own, cs, ino, off, addr, i)
    ensures Sound(sb, v, own) && ino < |v.inodes| && ino < |cs| && (i > 0 ==> off <= |cs[ino]|)
    ensures v.inodes[ino].size == if i == 0 then |cs[ino]| else Max(|cs[ino]|, off + i)
  {
    if i > 0 {
      SplicedAt(cs[ino], off, addr[..i], 0);
    }
  }

  // ---------- what the operations log ----------

  // The most blocks one chunk logs.
  function Share(sb: Super): nat
    requires sb.nblocks <= sb.size && sb.bmapstart <= Meta(sb)
  {
    6 + Min(Meta(sb) - sb.bmapstart, 4)
  }

  // All blocks of a list of operations.
  ghost function Blocks(logs: seq<set<nat>>): set<nat> {
    if logs == [] then {} else Blocks(logs[..|logs| - 1]) + logs[|logs| - 1]
  }

  // What had ended when a write began, and the device then.
  datatype Past = Past(was: Disk, finished: seq<set<nat>>, images: seq<Disk>)

  // The device after the first j of the operations that left it as imgs.
  function ImageAt(was: Disk, imgs: seq<Disk>, j: nat): Disk
    requires j <= |imgs|
  {
    if j == 0 then was else imgs[j - 1]
  }

  ghost predicate Differ(d: Disk, e: Disk, blocks: set<nat>) {
    |d| == |e| && forall x | 0 <= x < |d| && e[x] != d[x] :: x in blocks
  }

  // Since then the operations logs have ended, each within its share, and have left the device as imgs;
  // and every block that changed was given to log_write in the operation that changed it, or in the
  // one that is still open.
  ghost predicate Accounted(fs: FileSystem, past: Past, logs: seq<set<nat>>, imgs: seq<Disk>)
    requires fs.Valid()
    reads fs, fs.disk
  {
    && fs.finished == past.finished + logs && fs.images == past.images + imgs
    && Each(fs.sb, past.was, logs, imgs) && Differ(ImageAt(past.was, imgs, |imgs|), fs.disk[..], fs.logged)
  }

  // Each operation kept to its share, and logged what it changed.
  ghost predicate Each(sb: Super, was: Disk, logs: seq<set<nat>>, imgs: seq<Disk>)
    requires sb.nblocks <= sb.size && sb.bmapstart <= Meta(sb)
  {
    && |imgs| == |logs|
    && forall k: nat | k < |logs| :: |logs[k]| <= Share(sb) && Differ(ImageAt(was, imgs, k), imgs[k], logs[k])
  }

  lemma DifferMore(d: Disk, e: Disk, f: Disk, a: set<nat>, b: set<nat>)
    requires Differ(d, e, a) && Differ(e, f, b)
    ensures Differ(d, f, a + b)
  {
  }

  // So every block that changed is in one of them.
  lemma {:induction false} ChangedLogged(fs: FileSystem, past: Past, logs: seq<set<nat>>, imgs: seq<Disk>, k: nat)
    requires fs.Valid() && Accounted(fs, past, logs, imgs) && k <= |logs|
    ensures Differ(past.was, ImageAt(past.was, imgs, k), Blocks(logs[..k]))
    decreases k
  {
    if k == 0 {
      Same(past.was, {});
    } else {
      hide Differ;
      ChangedLogged(fs, past, logs, imgs, k - 1);
      assert logs[..k][..k - 1] == logs[..k - 1];
      DifferMore(past.was, ImageAt(past.was, imgs, k - 1), imgs[k - 1], Blocks(logs[..k - 1]), logs[k - 1]);
    }
  }

  lemma EachMore(sb: Super, was: Disk, logs: seq<set<nat>>, imgs: seq<Disk>, op: set<nat>, d: Disk)
    requires sb.nblocks <= sb.size && sb.bmapstart <= Meta(sb) && |op| <= Share(sb)
    requires Each(sb, was, logs, imgs) && Differ(ImageAt(was, imgs, |imgs|), d, op)
    ensures Each(sb, was, logs + [op], imgs + [d]) && Differ(ImageAt(was, imgs + [d], |imgs| + 1), d, {})
  {
    Same(d, {});
    assert ImageAt(was, imgs + [d], |imgs| + 1) == d;
    hide Share, Differ, ImageAt;
    var imgs2, logs2 := imgs + [d], logs + [op];
    forall k: nat | k <= |imgs|
      ensures |logs2[k]| <= Share(sb) && Differ(ImageAt(was, imgs2, k), imgs2[k], logs2[k])
    {
      ImagePrefix(was, imgs, d, k);
      if k < |imgs| {
        assert Differ(ImageAt(was, imgs, k), imgs[k], logs[k]);
      }
    }
  }

  lemma ImagePrefix(was: Disk, imgs: seq<Disk>, d: Disk, k: nat)
    requires k <= |imgs|
    ensures ImageAt(was, imgs + [d], k) == ImageAt(was, imgs, k) && (k < |imgs| ==> (imgs + [d])[k] == imgs[k])
  {
  }

  lemma Same(d: Disk, blocks: set<nat>)
    ensures Differ(d, d, blocks)
  {
  }

  twostate lemma Changed(fs: FileSystem)
    requires old(fs.Valid()) && fs.Journaled() && old(fs.logged) == {}
    ensures Differ(old(fs.disk[..]), fs.disk[..], fs.logged)
  {
  }

  // end_op.
  ghost method End(fs: FileSystem, past: Past, logs: seq<set<nat>>, imgs: seq<Disk>)
    requires fs.Valid() && Accounted(fs, past, logs, imgs) && |fs.logged| <= Share(fs.sb)
    modifies fs`logged, fs`finished, fs`images
    ensures Accounted(fs, past, logs + [old(fs.logged)], imgs + [fs.disk[..]]) && fs.logged == {}
  {
    hide Each, Differ, Share;
    EachMore(fs.sb, past.was, logs, imgs, fs.logged, fs.disk[..]);
    fs.EndOp();
  }

  // One operation: begin_op, writei, end_op.
  method WriteChunk(fs: FileSystem, f: File, chunk: seq<byte>, ghost own: map<nat, Slot>, ghost past: Past,
                    ghost logs: seq<set<nat>>, ghost imgs: seq<Disk>)
    returns (panicked: bool, r: int, ghost own2: map<nat, Slot>, ghost logs2: seq<set<nat>>, ghost imgs2: seq<Disk>)
    requires fs.Open(f.ip, f.ip.size, own) && fs.V().inodes[f.ip.inum] == f.ip.Din() && f.ip.typ != T_DEV
    requires f.off < TWO64 && |chunk| <= CHUNK && fs.logged == {} && Accounted(fs, past, logs, imgs)
    modifies fs.disk, fs`logged, fs`finished, fs`images, f`off, f.ip`addrs, f.ip`size
    ensures Accounted(fs, past, logs2, imgs2) && |logs2| == |logs| + (if panicked then 0 else 1)
    ensures panicked ==> forall c: nat | c < fs.sb.size :: c in fs.V().used
    ensures !panicked ==> fs.logged == {} && imgs2 == imgs + [fs.disk[..]]
    ensures panicked ==> imgs2 == imgs
    ensures !panicked ==> r == WriteResult(old(f.ip.size), old(f.off), |chunk|) && f.off == old(f.off) + (if r > 0 then r else 0)
    ensures !panicked && r < 0 ==> fs.V() == old(fs.V()) && f.ip.Din() == old(f.ip.Din()) && own2 == own
    ensures !panicked && r >= 0 ==> WroteTo(fs.sb, old(fs.V()), fs.V(), own2, f.ip.inum, chunk, old(f.off), |chunk|)
    ensures !panicked ==> fs.V().inodes[f.ip.inum] == f.ip.Din()
    ensures |old(f.ip.addrs)| == NDIRECT + 1
    ensures var k := if WriteResult(old(f.ip.size), old(f.off), |chunk|) < 0 then 0
                     else Wanted(old(f.ip.addrs), old(f.ip.size), old(f.off) + |chunk|);
            (panicked <==> old(fs.Room()) < k) && (!panicked ==> fs.Room() == old(fs.Room()) - k)
    ensures !panicked ==> Lately(old(f.ip.addrs), f.ip.addrs, f.ip.size)
  {
    hide Sound, Shaped, WroteTo, Abs, Wanted, Lately, FreeBlocks, Each, Differ;
    ghost var touched;
    panicked, r, own2, touched := Writei(fs, f.ip, chunk, f.off, own);
    Changed(fs);
    DifferMore(ImageAt(past.was, imgs, |imgs|), old(fs.disk[..]), fs.disk[..], {}, fs.logged);
    assert {} + fs.logged == fs.logged;
    logs2, imgs2 := logs, imgs;
    if !panicked {
      if r > 0 {
        f.off := f.off + r;
      }
      if r >= 0 {
        ChunkFits(Meta(fs.sb) - fs.sb.bmapstart, old(f.off), |chunk|);
        Subset(fs.logged, touched);
      } else {
        own2 := own;
      }
      logs2, imgs2 := logs + [fs.logged], imgs + [fs.disk[..]];
      End(fs, past, logs, imgs);
    }
  }

  // Why a write is cut short.
  predicate Refused(size: nat, off: nat, n: nat) {
    n > 0 && (off > size || off + n > MAXBYTES)
  }

  // What a write began with: the file's pointers and size, the offset, the length, and the free blocks.
  datatype Start = Start(addrs: seq<u32>, size: nat, off: nat, n: nat, room: nat)

  // The bytes of the chunks that fit the file.
  function Accepted(st: Start): nat {
    if st.off > st.size || st.off > MAXBYTES then 0
    else if st.off + st.n <= MAXBYTES then st.n
    else (MAXBYTES - st.off) / CHUNK * CHUNK
  }

  // The blocks the file has come to need for the first i bytes.
  function Needed(st: Start, i: nat): nat
    requires |st.addrs| == NDIRECT + 1
  {
    if i == 0 then 0 else Wanted(st.addrs, st.size, st.off + i)
  }

  // Where that has led after i bytes.
  ghost predicate Supplied(fs: FileSystem, f: File, st: Start, i: nat, panicked: bool)
    requires fs.Valid()
    reads fs, fs.disk, f, f.ip
  {
    && |st.addrs| == NDIRECT + 1 && Lately(st.addrs, st.addrs, st.size) && st.size <= MAXBYTES && i <= Accepted(st)
    && if panicked then st.room < Needed(st, Accepted(st))
       else
         && fs.Room() == st.room - Needed(st, i) && Lately(st.addrs, f.ip.addrs, f.ip.size)
         && f.ip.size == (if i == 0 then st.size else Max(st.size, st.off + i))
  }

  // The chunk at i is accepted, and has n1 bytes.
  lemma AcceptedMore(st: Start, i: nat, n1: nat)
    requires i < st.n && (i == 0 || (st.off <= st.size && st.off + i <= MAXBYTES)) && i % CHUNK == 0 && n1 == Min(st.n - i, CHUNK)
    requires i <= Accepted(st) && st.size <= MAXBYTES
    ensures st.off + i + n1 <= MAXBYTES && (i > 0 || st.off <= st.size) ==> i + n1 <= Accepted(st)
    ensures !(st.off + i + n1 <= MAXBYTES && (i > 0 || st.off <= st.size)) ==> i == Accepted(st)
  {
    assert CHUNK == 1536;
    if st.off <= st.size && st.off + st.n > MAXBYTES {
      var q := (MAXBYTES - st.off) / CHUNK;
      var p := i / CHUNK;
      assert i == CHUNK * p && Accepted(st) == CHUNK * q;
      assert p <= q;
      if st.off + i + n1 <= MAXBYTES {
        assert n1 == CHUNK;
        assert CHUNK * (p + 1) <= MAXBYTES - st.off;
        assert p + 1 <= q;
      } else {
        assert p == q;
      }
    }
  }

  lemma NeededMore(st: Start, mid: seq<u32>, sz: nat, i: nat, n1: nat)
    requires Lately(st.addrs, mid, sz) && sz == (if i == 0 then st.size else Max(st.size, st.off + i)) && st.off + i <= sz
    requires n1 > 0 && Lately(st.addrs, st.addrs, st.size)
    ensures Needed(st, i + n1) == Needed(st, i) + Wanted(mid, sz, st.off + i + n1)
  {
    WantedTwice(st.addrs, mid, st.size, sz, if i == 0 then 0 else st.off + i, st.off + i + n1);
  }

  lemma NeededGrows(st: Start, i: nat, j: nat)
    requires |st.addrs| == NDIRECT + 1 && i <= j
    ensures Needed(st, i) <= Needed(st, j)
  {
    if i > 0 {
      WantedGrows(st.addrs, st.size, st.off + i, st.off + j);
    }
  }

  // What the chunk at i needs, if writei accepts it.
  lemma ChunkNeeds(st: Start, mid: seq<u32>, sz: nat, i: nat, n1: nat)
    requires |st.addrs| == NDIRECT + 1 && Lately(st.addrs, mid, sz) && Lately(st.addrs, st.addrs, st.size)
    requires st.size <= MAXBYTES && i <= Accepted(st)
    requires sz == (if i == 0 then st.size else Max(st.size, st.off + i)) && st.off + i < TWO64
    requires i < st.n && i % CHUNK == 0 && n1 == Min(st.n - i, CHUNK) && (i > 0 ==> st.off <= st.size && st.off + i <= MAXBYTES)
    ensures if WriteResult(sz, st.off + i, n1) < 0 then i == Accepted(st) && Refused(st.size, st.off, st.n)
            else
              && WriteResult(sz, st.off + i, n1) == n1 && i + n1 <= Accepted(st)
              && Needed(st, i + n1) == Needed(st, i) + Wanted(mid, sz, st.off + i + n1) <= Needed(st, Accepted(st))
  {
    hide Wanted, Lately, Accepted, Needed;
    AcceptedMore(st, i, n1);
    if st.off + i <= sz {
      NeededMore(st, mid, sz, i, n1);
    }
    NeededGrows(st, i + n1, Max(i + n1, Accepted(st)));
  }

  // The write has come to byte i, between two operations.
  ghost predicate At(fs: FileSystem, f: File, own: map<nat, Slot>, cs: seq<seq<byte>>, off: nat, addr: seq<byte>, i: nat)
    reads fs, fs.disk, f, f.ip
  {
    && fs.Valid() && f.ip.inum < fs.sb.ninodes && |f.ip.addrs| == NDIRECT + 1 && f.ip.typ != T_DEV
    && fs.V().inodes[f.ip.inum] == f.ip.Din() && f.off == off + i < TWO64 && fs.logged == {}
    && WrittenTo(fs.sb, fs.V(), own, cs, f.ip.inum, off, addr, i)
    && (i > 0 ==> off <= |cs[f.ip.inum]| && off + i <= MAXBYTES)
  }

  // One round of the loop.
  method NextChunk(fs: FileSystem, f: File, addr: seq<byte>, i: nat, ghost own: map<nat, Slot>, ghost cs: seq<seq<byte>>, ghost st: Start,
                   ghost past: Past, ghost logs: seq<set<nat>>, ghost imgs: seq<Disk>)
    returns (panicked: bool, r: int, n1: nat, ghost own2: map<nat, Slot>, ghost logs2: seq<set<nat>>, ghost imgs2: seq<Disk>)
    requires At(fs, f, own, cs, st.off, addr, i) && i < |addr| && i % CHUNK == 0 && Accounted(fs, past, logs, imgs)
    requires st.size == |cs[f.ip.inum]| && st.n == |addr| && Supplied(fs, f, st, i, false)
    modifies fs.disk, fs`logged, fs`finished, fs`images, f`off, f.ip`addrs, f.ip`size
    ensures Accounted(fs, past, logs2, imgs2) && |logs2| == |logs| + (if panicked then 0 else 1)
    ensures imgs2 == if panicked then imgs else imgs + [fs.disk[..]]
    ensures panicked ==> forall c: nat | c < fs.sb.size :: c in fs.V().used
    ensures n1 == Min(|addr| - i, CHUNK)
    ensures !panicked && r >= 0 ==> r == n1 && At(fs, f, own2, cs, st.off, addr, i + n1)
    ensures !panicked && r < 0 ==> At(fs, f, own2, cs, st.off, addr, i) && Refused(st.size, st.off, |addr|) && i == Accepted(st)
    ensures Supplied(fs, f, st, if !panicked && r >= 0 then i + n1 else i, panicked)
  {
    hide WroteTo, Files, Accounted, Abs, Wanted, FreeBlocks, Lately, Accepted, Needed, Sound, Shaped, WrittenTo, Contents, Chunks, Spliced;
    ghost var v0, mid, sz := fs.V(), f.ip.addrs, f.ip.size;
    ghost var off := st.off;
    WrittenSize(fs.sb, v0, own, cs, f.ip.inum, off, addr, i);
    OnDevice(v0, f.ip.inum, f.ip.Din());
    n1 := Min(|addr| - i, CHUNK);
    ChunkNeeds(st, mid, sz, i, n1);
    panicked, r, own2, logs2, imgs2 := WriteChunk(fs, f, addr[i..i + n1], own, past, logs, imgs);
    if !panicked && r >= 0 {
      WrittenMore(fs.sb, v0, own, fs.V(), own2, cs, f.ip.inum, off, addr, i, n1);
      WrittenSize(fs.sb, fs.V(), own2, cs, f.ip.inum, off, addr, i + n1);
      LatelyMore(st.addrs, mid, f.ip.addrs, sz, f.ip.size);
    }
  }

  // How many operations have been needed for the first i bytes.
  function Chunks(i: nat): nat { (i + CHUNK - 1) / CHUNK }

  lemma ChunksMore(i: nat, n: nat)
    requires i < n && i % CHUNK == 0
    ensures var j := i + Min(n - i, CHUNK);
            Chunks(j) == Chunks(i) + 1 && j <= n && (j < n ==> j % CHUNK == 0)
  {
    assert CHUNK == 1536;
    var q, d := i / 1536, Min(n - i, 1536);
    assert i == 1536 * q;
    assert (1536 * q + d + 1535) / 1536 == q + 1;
  }

  // The device shows the first i bytes written.
  ghost predicate Shown(sb: Super, d: Disk, cs: seq<seq<byte>>, ino: nat, off: nat, addr: seq<byte>, i: nat) {
    SuperOk(sb, |d|) && exists own: map<nat, Slot> :: WrittenTo(sb, Abs(sb, d), own, cs, ino, off, addr, i)
  }

  // What j chunks come to, of i bytes.
  function Part(j: nat, i: nat): nat { Min(j * CHUNK, i) }

  // After each operation it shows the chunks up to there.
  ghost predicate Staged(sb: Super, imgs: seq<Disk>, cs: seq<seq<byte>>, ino: nat, off: nat, addr: seq<byte>, i: nat) {
    forall j: nat | j < |imgs| :: Shown(sb, imgs[j], cs, ino, off, addr, Part(j + 1, i))
  }

  lemma StagedMore(sb: Super, imgs: seq<Disk>, d: Disk, cs: seq<seq<byte>>, ino: nat, off: nat, addr: seq<byte>, i: nat, n: nat)
    requires Staged(sb, imgs, cs, ino, off, addr, i) && |imgs| == Chunks(i) && i % CHUNK == 0
    requires n <= CHUNK && Shown(sb, d, cs, ino, off, addr, i + n)
    ensures Staged(sb, imgs + [d], cs, ino, off, addr, i + n)
  {
    assert CHUNK == 1536;
    assert i == 1536 * |imgs|;
    forall j: nat | j < |imgs| + 1
      ensures Shown(sb, (imgs + [d])[j], cs, ino, off, addr, Part(j + 1, i + n))
    {
      if j < |imgs| {
        assert (j + 1) * 1536 <= i;
        assert Shown(sb, imgs[j], cs, ino, off, addr, Part(j + 1, i));
      }
    }
  }

  // The loop's invariant; stop says that a chunk was refused.
  ghost predicate Going(fs: FileSystem, f: File, own: map<nat, Slot>, cs: seq<seq<byte>>, st: Start, addr: seq<byte>, past: Past,
                        panicked: bool, stop: bool, i: nat, logs: seq<set<nat>>, imgs: seq<Disk>)
    requires fs.Valid() && f.ip.inum < |cs|
    reads fs, fs.disk, f, f.ip
  {
    && Accounted(fs, past, logs, imgs) && Staged(fs.sb, imgs, cs, f.ip.inum, st.off, addr, i) && |imgs| == |logs| == Chunks(i) + (if stop then 1 else 0)
    && i <= |addr| && (i < |addr| ==> i % CHUNK == 0)
    && (panicked ==> !stop && i < |addr| && forall c: nat | c < fs.sb.size :: c in fs.V().used)
    && (!panicked ==> At(fs, f, own, cs, st.off, addr, i))
    && (stop ==> !panicked && i < |addr| && Refused(|cs[f.ip.inum]|, st.off, |addr|) && i == Accepted(st))
    && st.size == |cs[f.ip.inum]| && st.n == |addr| && Supplied(fs, f, st, i, panicked)
  }

  method Round(fs: FileSystem, f: File, addr: seq<byte>, i: nat, ghost own: map<nat, Slot>, ghost cs: seq<seq<byte>>, ghost st: Start,
               ghost past: Past, ghost logs: seq<set<nat>>, ghost imgs: seq<Disk>)
    returns (panicked: bool, stop: bool, j: nat, ghost own2: map<nat, Slot>, ghost logs2: seq<set<nat>>, ghost imgs2: seq<Disk>)
    requires fs.Valid() && f.ip.inum < |cs| && Going(fs, f, own, cs, st, addr, past, false, false, i, logs, imgs) && i < |addr|
    modifies fs.disk, fs`logged, fs`finished, fs`images, f`off, f.ip`addrs, f.ip`size
    ensures Going(fs, f, own2, cs, st, addr, past, panicked, stop, j, logs2, imgs2)
    ensures i <= j <= |addr| && (panicked || stop || i < j)
  {
    hide WrittenTo, Refused, Accounted, Chunks, Abs, At, Supplied, Accepted, Staged, Shown;
    var c, n1;
    panicked, c, n1, own2, logs2, imgs2 := NextChunk(fs, f, addr, i, own, cs, st, past, logs, imgs);
    stop, j := c < 0 && !panicked, i;
    if !stop && !panicked {
      ChunksMore(i, |addr|);
      j := i + n1;
    }
    if !panicked {
      ShownHere(fs, f, own2, cs, st.off, addr, j);
      StagedMore(fs.sb, imgs, fs.disk[..], cs, f.ip.inum, st.off, addr, i, j - i);
    }
  }

  lemma ShownHere(fs: FileSystem, f: File, own: map<nat, Slot>, cs: seq<seq<byte>>, off: nat, addr: seq<byte>, i: nat)
    requires At(fs, f, own, cs, off, addr, i)
    ensures Shown(fs.sb, fs.disk[..], cs, f.ip.inum, off, addr, i)
  {
  }

  ghost function Begun(fs: FileSystem, f: File, cs: seq<seq<byte>>, addr: seq<byte>): Start
    requires fs.Valid() && f.ip.inum < |cs|
    reads fs, fs.disk, f, f.ip
  {
    Start(f.ip.addrs, |cs[f.ip.inum]|, f.off, |addr|, fs.Room())
  }

  lemma Beginning(fs: FileSystem, f: File, own: map<nat, Slot>, cs: seq<seq<byte>>, addr: seq<byte>)
    requires At(fs, f, own, cs, f.off, addr, 0)
    ensures Supplied(fs, f, Begun(fs, f, cs, addr), 0, false)
  {
    WrittenSize(fs.sb, fs.V(), own, cs, f.ip.inum, f.off, addr, 0);
    OnDevice(fs.V(), f.ip.inum, f.ip.Din());
    NothingWanted(fs, f.ip, own, 0);
  }

  // The loop of file_write.
  method WriteLoop(fs: FileSystem, f: File, addr: seq<byte>, ghost own: map<nat, Slot>, ghost cs: seq<seq<byte>>, ghost st: Start)
    returns (panicked: bool, stop: bool, i: nat, ghost logs: seq<set<nat>>, ghost imgs: seq<Disk>, ghost own2: map<nat, Slot>)
    requires At(fs, f, own, cs, f.off, addr, 0) && st == Begun(fs, f, cs, addr)
    modifies fs.disk, fs`logged, fs`finished, fs`images, f`off, f.ip`addrs, f.ip`size
    ensures Going(fs, f, own2, cs, st, addr, old(Until(fs)), panicked, stop, i, logs, imgs)
    ensures i <= |addr| && (i < |addr| ==> panicked || stop)
  {
    panicked, stop, i, logs, imgs, own2 := false, false, 0, [], [], own;
    ghost var past := Until(fs);
    Beginning(fs, f, own, cs, addr);
    hide WrittenTo, Accounted, Chunks, Abs, Supplied, Begun, Accepted;
    NothingYet(fs);
    while i < |addr| && !stop && !panicked
      invariant i <= |addr| && Going(fs, f, own2, cs, st, addr, past, panicked, stop, i, logs, imgs)
      decreases |addr| - i, !stop, !panicked
    {
      panicked, stop, i, own2, logs, imgs := Round(fs, f, addr, i, own2, cs, st, past, logs, imgs);
    }
  }

  ghost function Until(fs: FileSystem): Past
    reads fs, fs.disk
  {
    Past(fs.disk[..], fs.finished, fs.images)
  }

  lemma NothingYet(fs: FileSystem)
    requires fs.Valid()
    ensures Accounted(fs, Until(fs), [], []) && Chunks(0) == 0
  {
  }

  /** Writes the bytes at the file's offset, one operation for each chunk; no operation logs more than
      its share, and each logs every block that it changes. After every one of them the device shows
      the chunks up to there. It answers n exactly if the whole
      range fits the file; otherwise it answers -1, and the chunks before the first that does not fit
      are written. The file is the old one with what was written spliced in. It panics exactly if fewer
      blocks are free than the file comes to need for that. */
  method Write(fs: FileSystem, f: File, addr: seq<byte>, ghost own: map<nat, Slot>, ghost cs: seq<seq<byte>>)
    returns (panicked: bool, r: int, i: nat, ghost logs: seq<set<nat>>, ghost imgs: seq<Disk>, ghost own2: map<nat, Slot>)
    requires At(fs, f, own, cs, f.off, addr, 0) && |addr| < 0x8000_0000
    modifies fs.disk, fs`logged, fs`finished, fs`images, f`off, f.ip`addrs, f.ip`size
    ensures !f.writable ==> !panicked && r == -1 && i == 0
    ensures var st := old(Begun(fs, f, cs, addr));
            && |st.addrs| == NDIRECT + 1
            && (panicked <==> f.writable && st.room < Needed(st, Accepted(st)))
            && (!panicked && f.writable ==> i == Accepted(st) && fs.Room() == st.room - Needed(st, i))
    ensures panicked ==> forall c: nat | c < fs.sb.size :: c in fs.V().used
    ensures Accounted(fs, old(Until(fs)), logs, imgs) && Staged(fs.sb, imgs, cs, f.ip.inum, old(f.off), addr, i)
    ensures i <= |addr| && |logs| == Chunks(i) + (if f.writable && !panicked && i < |addr| then 1 else 0)
    ensures !panicked ==> At(fs, f, own2, cs, old(f.off), addr, i)
    ensures !panicked && f.writable ==> r == if Refused(|cs[f.ip.inum]|, old(f.off), |addr|) then -1 else |addr|
  {
    ghost var st := Begun(fs, f, cs, addr);
    panicked, r, i, logs, imgs, own2 := false, -1, 0, [], [], own;
    NothingYet(fs);
    Beginning(fs, f, own, cs, addr);
    if f.writable {
      var stop;
      panicked, stop, i, logs, imgs, own2 := WriteLoop(fs, f, addr, own, cs, st);
      r := if i == |addr| then |addr| else -1;
      EndsAccepted(st, i);
    }
  }

  // All that was to be written is accepted if it fits.
  lemma EndsAccepted(st: Start, i: nat)
    requires i <= Accepted(st) && st.size <= MAXBYTES
    ensures Accepted(st) <= st.n && (st.n > 0 ==> (Accepted(st) < st.n <==> Refused(st.size, st.off, st.n)))
  {
    if st.off <= st.size && st.off + st.n > MAXBYTES {
      assert (MAXBYTES - st.off) / CHUNK * CHUNK <= MAXBYTES - st.off;
    }
  }
}
