/** Reading and writing files (kern/fs.c), and how much one write logs (kern/file.c). */
module FsFile {
  import opened Bytes
  import opened Limits
  import opened Sets
  import opened Layout
  import opened Volume
  import opened Fs

  const MAXBYTES := MAXFILE * BSIZE

  // A file is a byte sequence.
  ghost function Contents(v: Vol, i: nat): (s: seq<byte>)
    requires i < |v.inodes| && DinodeOk(v.inodes[i]) && v.inodes[i].size <= MAXBYTES
    ensures |s| == v.inodes[i].size
  {
    seq(v.inodes[i].size, o requires 0 <= o < v.inodes[i].size => ByteAt(v, i, o))
  }

  // A byte of a file block, through the block's pointer.
  lemma ByteOfBlock(sb: Super, v: Vol, own: map<nat, Slot>, i: nat, addr: nat, o: nat)
    requires Sound(sb, v, own) && i < sb.ninodes && o / BSIZE < MAXFILE
    requires addr in own && own[addr] == Slot(i, SlotOf(o / BSIZE)) && addr < |v.data|
    ensures Meta(sb) <= addr && ByteAt(v, i, o) == v.data[addr][o % BSIZE]
  {
    assert OwnOk(sb, v, own, addr);
  }

  lemma InBlock(pos: nat, d: nat)
    requires pos % BSIZE + d < BSIZE
    ensures (pos + d) / BSIZE == pos / BSIZE && (pos + d) % BSIZE == pos % BSIZE + d
  {
  }

  // m bytes of a file inside one block.
  lemma ChunkIs(sb: Super, v: Vol, own: map<nat, Slot>, i: nat, addr: nat, pos: nat, m: nat)
    requires Sound(sb, v, own) && i < sb.ninodes && v.inodes[i].size <= MAXBYTES
    requires pos + m <= v.inodes[i].size && pos % BSIZE + m <= BSIZE && m > 0
    requires addr in own && own[addr] == Slot(i, SlotOf(pos / BSIZE)) && addr < |v.data|
    ensures v.data[addr][pos % BSIZE..pos % BSIZE + m] == Contents(v, i)[pos..pos + m]
  {
    var a, c := v.data[addr][pos % BSIZE..pos % BSIZE + m], Contents(v, i)[pos..pos + m];
    forall d: nat | d < m
      ensures a[d] == c[d]
    {
      InBlock(pos, d);
      ByteOfBlock(sb, v, own, i, addr, pos + d);
    }
  }

  function Min(a: nat, b: nat): nat { if a < b then a else b }

  /** Reads the file's bytes from off on, n of them or up to the end: at the end there are none, and
      only an offset beyond it or a range that wraps around is an error. It never allocates, changes
      nothing and cannot panic. */
  method Readi(fs: FileSystem, ip: Inode, off: nat, n: nat, ghost own: map<nat, Slot>) returns (r: int, dst: seq<byte>)
    requires fs.Open(ip, ip.size, own) && ip.typ != T_DEV && off < TWO64 && n < TWO64
    modifies fs.disk, fs`logged, ip`addrs
    ensures fs.Valid() && fs.Unchanged(ip) && fs.Open(ip, ip.size, own)
    ensures ip.size <= MAXBYTES && (r == -1 <==> off > ip.size || off + n >= TWO64)
    ensures r != -1 ==> r == |dst| && dst == Contents(fs.E(ip, ip.size), ip.inum)[off..Min(off + n, ip.size)]
    ensures off == ip.size && off + n < TWO64 ==> r == 0 && dst == []
  {
    SizeFits(fs, ip, own);
    r, dst := -1, [];
    if !(off > ip.size || (off + n) % TWO64 < off) {
      r := if off + n > ip.size then ip.size - off else n;
      dst := ReadAll(fs, ip, off, r, own);
    }
  }

  // readi's loop.
  method ReadAll(fs: FileSystem, ip: Inode, off: nat, n: nat, ghost own: map<nat, Slot>) returns (dst: seq<byte>)
    requires fs.Open(ip, ip.size, own) && off + n <= ip.size
    modifies fs.disk, fs`logged, ip`addrs
    ensures fs.Valid() && fs.Unchanged(ip) && fs.Open(ip, ip.size, own)
    ensures ip.size <= MAXBYTES && dst == Contents(fs.E(ip, ip.size), ip.inum)[off..off + n]
  {
    hide Abs, With, Sized, ByteAt;
    SizeFits(fs, ip, own);
    hide Sound, Shaped;
    ghost var c := Contents(fs.E(ip, ip.size), ip.inum);
    dst := [];
    var tot := 0;
    while tot < n
      invariant tot <= n && fs.Unchanged(ip) && fs.Open(ip, ip.size, own)
      invariant dst == c[off..off + tot]
    {
      var chunk := ReadChunk(fs, ip, off + tot, n - tot, own);
      dst, tot := dst + chunk, tot + |chunk|;
    }
  }

  lemma SizeFits(fs: FileSystem, ip: Inode, own: map<nat, Slot>)
    requires fs.Open(ip, ip.size, own)
    ensures ip.size <= MAXBYTES
  {
    assert fs.E(ip, ip.size).inodes[ip.inum].size == ip.size;
  }

  // One round of readi's loop.
  method ReadChunk(fs: FileSystem, ip: Inode, pos: nat, left: nat, ghost own: map<nat, Slot>) returns (chunk: seq<byte>)
    requires fs.Open(ip, ip.size, own) && ip.size <= MAXBYTES && left > 0 && pos + left <= ip.size
    modifies fs.disk, fs`logged, ip`addrs
    ensures fs.Valid() && fs.Unchanged(ip) && fs.Open(ip, ip.size, own)
    ensures 0 < |chunk| <= left && chunk == Contents(fs.E(ip, ip.size), ip.inum)[pos..pos + |chunk|]
  {
    ghost var v, own2, bm := fs.E(ip, ip.size), own, {};
    var panicked, addr;
    panicked, addr, own2, bm := fs.Bmap(ip, pos / BSIZE, own, ip.size);
    var m := Min(left, BSIZE - pos % BSIZE);
    ByteOfBlock(fs.sb, v, own, ip.inum, addr, pos);
    ChunkIs(fs.sb, v, own, ip.inum, addr, pos, m);
    chunk := fs.disk[addr][pos % BSIZE..pos % BSIZE + m];
  }

  // ---------- writing ----------

  function Max(a: nat, b: nat): nat { if a > b then a else b }

  // After the first tot bytes of src have been written at off: v0 became w.
  ghost predicate WroteTo(sb: Super, v0: Vol, w: Vol, own: map<nat, Slot>, i: nat, src: seq<byte>, off: nat, tot: nat) {
    match w
    case Vol(used, inodes, data) =>
      && Shaped(sb, v0) && i < sb.ninodes && Sound(sb, w, own)
      && off <= v0.inodes[i].size && tot <= |src| && off + tot <= MAXBYTES
      && inodes[i].size == Max(v0.inodes[i].size, off + tot)
      && (forall j | 0 <= j < sb.ninodes && j != i :: inodes[j] == v0.inodes[j])
      && (forall j: nat, o: nat {:trigger ByteAt(w, j, o)} | j < sb.ninodes && o < inodes[j].size && o / BSIZE < MAXFILE ::
            ByteAt(w, j, o) == NewByte(v0, i, src, off, tot, j, o))
  }

  ghost function NewByte(v0: Vol, i: nat, src: seq<byte>, off: nat, tot: nat, j: nat, o: nat): byte
    requires j < |v0.inodes| && DinodeOk(v0.inodes[j]) && o / BSIZE < MAXFILE && tot <= |src|
  {
    if j == i && off <= o < off + tot then src[o - off] else ByteAt(v0, j, o)
  }

  // Block addr of file i with a chunk copied into it, the file being sz bytes long.
  ghost function Stored(u: Vol, i: nat, addr: nat, at: nat, chunk: seq<byte>, sz: u32): Vol
    requires i < |u.inodes| && addr < |u.data| && at + |chunk| <= BSIZE
  {
    With(u.(data := u.data[addr := Splice(u.data[addr], at, chunk)]), i, Sized(u.inodes[i], sz))
  }

  // One chunk of a write: v0 has become w, bmap has found addr for position pos, leaving u.
  ghost predicate Writing(sb: Super, v0: Vol, w: Vol, own: map<nat, Slot>, u: Vol, own2: map<nat, Slot>,
                          i: nat, src: seq<byte>, off: nat, tot: nat, addr: nat, m: nat) {
    match u
    case Vol(used, inodes, data) =>
      && WroteTo(sb, v0, w, own, i, src, off, tot) && 0 < m && tot + m <= |src| && off + tot + m <= MAXBYTES
      && (off + tot) % BSIZE + m <= BSIZE
      && BmapDone(sb, w, own, u, own2, i, (off + tot) / BSIZE, addr)
  }

  lemma SameCeiling(size: nat, pos: nat, m: nat)
    requires pos <= size && 0 < m && pos % BSIZE + m <= BSIZE
    ensures var g := if size > BSIZE * (pos / BSIZE) then size else BSIZE * (pos / BSIZE) + 1;
            g <= Max(size, pos + m) && (Max(size, pos + m) + BSIZE - 1) / BSIZE == (g + BSIZE - 1) / BSIZE
  {
  }

  lemma StoredSound(sb: Super, v0: Vol, w: Vol, own: map<nat, Slot>, u: Vol, own2: map<nat, Slot>,
                    i: nat, src: seq<byte>, off: nat, tot: nat, addr: nat, m: nat)
    requires Writing(sb, v0, w, own, u, own2, i, src, off, tot, addr, m)
    ensures Sound(sb, Stored(u, i, addr, (off + tot) % BSIZE, src[tot..tot + m], Max(w.inodes[i].size, off + tot + m)), own2)
  {
    var at := (off + tot) % BSIZE;
    WroteSound(sb, u, own2, addr, Splice(u.data[addr], at, src[tot..tot + m]));
    SameCeiling(w.inodes[i].size, off + tot, m);
    SizeSound(sb, u.(data := u.data[addr := Splice(u.data[addr], at, src[tot..tot + m])]), own2, i, Max(w.inodes[i].size, off + tot + m));
  }

  // bmap moved no byte, and what the write has not reached is as before.
  lemma OldByte(sb: Super, v0: Vol, w: Vol, own: map<nat, Slot>, u: Vol, own2: map<nat, Slot>,
                i: nat, src: seq<byte>, off: nat, tot: nat, addr: nat, m: nat, j: nat, o: nat)
    requires Writing(sb, v0, w, own, u, own2, i, src, off, tot, addr, m)
    requires j < sb.ninodes && o / BSIZE < MAXFILE && !(j == i && off + tot <= o < off + tot + m)
    requires o < (if j == i then Max(w.inodes[i].size, off + tot + m) else w.inodes[j].size)
    ensures DinodeOk(u.inodes[j]) && ByteAt(u, j, o) == NewByte(v0, i, src, off, tot + m, j, o)
  {
    hide Sound;
    assert o < w.inodes[j].size;
    assert ByteAt(w, j, o) == NewByte(v0, i, src, off, tot, j, o);
  }

  // Only the chunk's bytes of the block are new.
  lemma ChunkByte(sb: Super, u: Vol, own2: map<nat, Slot>, i: nat, pos: nat, chunk: seq<byte>, addr: nat, j: nat, o: nat)
    requires Sound(sb, u, own2) && i < sb.ninodes && j < sb.ninodes && o / BSIZE < MAXFILE && pos / BSIZE < MAXFILE
    requires addr in own2 && own2[addr] == Slot(i, SlotOf(pos / BSIZE)) && addr < |u.data| && pos % BSIZE + |chunk| <= BSIZE
    ensures var y := u.(data := u.data[addr := Splice(u.data[addr], pos % BSIZE, chunk)]);
            ByteAt(y, j, o) == if j == i && pos <= o < pos + |chunk| then chunk[o - pos] else ByteAt(u, j, o)
  {
    WroteBytes(sb, u, own2, addr, Splice(u.data[addr], pos % BSIZE, chunk), j, o);
    if j == i && pos <= o < pos + |chunk| {
      InBlock(pos, o - pos);
    } else if Slot(j, SlotOf(o / BSIZE)) == own2[addr] {
      OtherInBlock(pos, |chunk|, o);
      ByteOfBlock(sb, u, own2, i, addr, o);
    }
  }

  lemma StoredByte(sb: Super, v0: Vol, w: Vol, own: map<nat, Slot>, u: Vol, own2: map<nat, Slot>,
                   i: nat, src: seq<byte>, off: nat, tot: nat, addr: nat, m: nat, j: nat, o: nat)
    requires Writing(sb, v0, w, own, u, own2, i, src, off, tot, addr, m)
    requires j < sb.ninodes && o / BSIZE < MAXFILE
    requires o < (if j == i then Max(w.inodes[i].size, off + tot + m) else w.inodes[j].size)
    ensures var x := Stored(u, i, addr, (off + tot) % BSIZE, src[tot..tot + m], Max(w.inodes[i].size, off + tot + m));
            |x.inodes| == sb.ninodes && DinodeOk(x.inodes[j]) && ByteAt(x, j, o) == NewByte(v0, i, src, off, tot + m, j, o)
  {
    var pos := off + tot;
    var y := u.(data := u.data[addr := Splice(u.data[addr], pos % BSIZE, src[tot..tot + m])]);
    var x := Stored(u, i, addr, pos % BSIZE, src[tot..tot + m], Max(w.inodes[i].size, pos + m));
    assert ByteAt(x, j, o) == ByteAt(y, j, o);
    ChunkByte(sb, u, own2, i, pos, src[tot..tot + m], addr, j, o);
    if !(j == i && pos <= o < pos + m) {
      OldByte(sb, v0, w, own, u, own2, i, src, off, tot, addr, m, j, o);
    }
  }

  lemma OtherInBlock(pos: nat, m: nat, o: nat)
    requires o / BSIZE == pos / BSIZE && pos % BSIZE + m <= BSIZE && !(pos <= o < pos + m)
    ensures !(pos % BSIZE <= o % BSIZE < pos % BSIZE + m)
  {
  }

  lemma WroteMore(sb: Super, v0: Vol, w: Vol, own: map<nat, Slot>, u: Vol, own2: map<nat, Slot>,
                  i: nat, src: seq<byte>, off: nat, tot: nat, addr: nat, m: nat)
    requires Writing(sb, v0, w, own, u, own2, i, src, off, tot, addr, m)
    ensures WroteTo(sb, v0, Stored(u, i, addr, (off + tot) % BSIZE, src[tot..tot + m], Max(w.inodes[i].size, off + tot + m)), own2,
                    i, src, off, tot + m)
  {
    StoredSound(sb, v0, w, own, u, own2, i, src, off, tot, addr, m);
    var x := Stored(u, i, addr, (off + tot) % BSIZE, src[tot..tot + m], Max(w.inodes[i].size, off + tot + m));
    forall j: nat, o: nat {:trigger ByteAt(x, j, o)} | j < sb.ninodes && o < x.inodes[j].size && o / BSIZE < MAXFILE
      ensures ByteAt(x, j, o) == NewByte(v0, i, src, off, tot + m, j, o)
    {
      StoredByte(sb, v0, w, own, u, own2, i, src, off, tot, addr, m, j, o);
    }
  }

  // ---------- what a write logs ----------

  // Blocks the write touches, and those of them that are new when nothing beyond the end exists.
  function Rounds(off: nat, n: nat): nat { (off % BSIZE + n + BSIZE - 1) / BSIZE }

  function News(off: nat, n: nat): nat {
    if off % BSIZE == 0 || Rounds(off, n) == 0 then Rounds(off, n) else Rounds(off, n) - 1
  }

  // Data blocks, a bitmap block for each new block and the indirect block (of maps bitmap blocks in
  // all), the latter, and the inode.
  function LogBound(maps: nat, off: nat, n: nat): nat { Rounds(off, n) + Min(News(off, n) + 1, maps) + 1 + 1 }

  /** A chunk of file_write fits one operation's share of the log, wherever it begins. */
  lemma ChunkFits(maps: nat, off: nat, n: nat)
    requires n <= (MAXOPBLOCKS - 4) / 2 * 512
    ensures LogBound(maps, off, n) <= 6 + Min(maps, 4) <= MAXOPBLOCKS
  {
  }

  // What has been logged so far: data blocks and bitmap blocks, in how many rounds, of which how
  // many made a block.
  datatype Note = Note(td: set<nat>, tb: set<nat>, rounds: nat, news: nat)

  ghost predicate Touched(maps: set<nat>, l0: set<nat>, l: set<nat>, note: Note, before: seq<u32>, after: seq<u32>) {
    match note
    case Note(td, tb, rounds, news) =>
      l <= l0 + td + tb + Inds(after) && |td| <= rounds && |tb| <= news + Made(before, after) && tb <= maps
  }

  // What one call of bmap and one log_write add.
  lemma TouchedMore(maps: set<nat>, l0: set<nat>, l: set<nat>, note: Note, before: seq<u32>, mid: seq<u32>, after: seq<u32>,
                    bm: set<nat>, more: nat, addr: nat, k: set<nat>)
    requires Touched(maps, l0, l, note, before, mid) && |before| == |mid| == |after| == NDIRECT + 1
    requires k <= l + bm + {addr} + Inds(after) && |bm| <= more + Made(mid, after) && bm <= maps
    requires before[NDIRECT] != 0 ==> mid[NDIRECT] == before[NDIRECT]
    requires mid[NDIRECT] != 0 ==> after[NDIRECT] == mid[NDIRECT]
    ensures Touched(maps, l0, k, Note(note.td + {addr}, note.tb + bm, note.rounds + 1, note.news + more), before, after)
  {
  }

  // Every round but the last fills its block; a first round in the middle of a block finds it there.
  predicate RoundsOk(off: nat, tot: nat, n: nat, rounds: nat, news: nat) {
    && (rounds == 0 <==> tot == 0)
    && (rounds > 0 && tot < n ==> off % BSIZE + tot == BSIZE * rounds)
    && (rounds > 0 ==> BSIZE * (rounds - 1) < off % BSIZE + tot)
    && news <= (if off % BSIZE == 0 || rounds == 0 then rounds else rounds - 1)
  }

  lemma RoundsMore(off: nat, tot: nat, n: nat, rounds: nat, news: nat, m: nat, more: nat)
    requires RoundsOk(off, tot, n, rounds, news) && tot < n && more <= 1
    requires m == Min(n - tot, BSIZE - (off + tot) % BSIZE)
    requires tot == 0 && off % BSIZE != 0 ==> more == 0
    ensures m > 0 && RoundsOk(off, tot + m, n, rounds + 1, news + more)
  {
    if rounds > 0 {
      WholeBlocks(off, tot, rounds);
    }
  }

  lemma WholeBlocks(off: nat, tot: nat, rounds: nat)
    requires off % BSIZE + tot == BSIZE * rounds
    ensures (off + tot) % BSIZE == 0
  {
    assert off + tot == BSIZE * (off / BSIZE + rounds);
  }

  lemma RoundsDone(off: nat, n: nat, rounds: nat, news: nat)
    requires RoundsOk(off, n, n, rounds, news)
    ensures rounds <= Rounds(off, n) && news <= News(off, n)
  {
  }

  // ---------- how many blocks a write takes ----------

  function Ceiling(n: nat): nat { (n + BSIZE - 1) / BSIZE }

  // The blocks taken when a file of size bytes with those pointers comes to end at end or later.
  function Wanted(addrs: seq<u32>, size: nat, end: nat): nat
    requires |addrs| == NDIRECT + 1
  {
    Ceiling(Max(size, end)) - Ceiling(size) + (if addrs[NDIRECT] == 0 && Max(size, end) > BSIZE * NDIRECT then 1 else 0)
  }

  lemma WantedGrows(addrs: seq<u32>, size: nat, a: nat, b: nat)
    requires |addrs| == NDIRECT + 1 && a <= b
    ensures Wanted(addrs, size, a) <= Wanted(addrs, size, b)
  {
  }

  // The indirect block is there if it was before, or since the file has gone beyond the direct blocks.
  predicate Lately(before: seq<u32>, after: seq<u32>, sz: nat) {
    && |before| == |after| == NDIRECT + 1
    && (after[NDIRECT] == 0 <==> before[NDIRECT] == 0 && sz <= BSIZE * NDIRECT)
  }

  lemma WantedMore(before: seq<u32>, mid: seq<u32>, size: nat, sz: nat, pos: nat, m: nat)
    requires sz == Max(size, pos) && Lately(before, mid, sz) && 0 < m && pos % BSIZE + m <= BSIZE
    ensures Wanted(before, size, pos + m) == Wanted(before, size, pos) + Takes(mid, sz, pos / BSIZE)
  {
    var q, d := pos / BSIZE, pos % BSIZE;
    assert pos == BSIZE * q + d;
    assert Ceiling(pos + m) == q + 1;
    if sz > BSIZE * q {
      assert Ceiling(sz) >= q + 1;
    } else {
      assert d == 0 && sz == BSIZE * q;
      assert Ceiling(sz) == q;
    }
  }

  // A file beyond the direct blocks has an indirect block.
  lemma HasIndirect(sb: Super, v: Vol, own: map<nat, Slot>, i: nat)
    requires Sound(sb, v, own) && i < sb.ninodes && v.inodes[i].size > BSIZE * NDIRECT
    ensures v.inodes[i].addrs[NDIRECT] != 0
  {
    assert SlotOk(sb, v, own, sb.ninodes, i, NDIRECT);
  }

  lemma NothingWanted(fs: FileSystem, ip: Inode, own: map<nat, Slot>, off: nat)
    requires fs.Open(ip, ip.size, own) && off <= ip.size
    ensures Lately(ip.addrs, ip.addrs, ip.size) && Wanted(ip.addrs, ip.size, off) == 0
  {
    if ip.size > BSIZE * NDIRECT {
      HasIndirect(fs.sb, fs.E(ip, ip.size), own, ip.inum);
    }
  }

  // Twice in a row.
  lemma LatelyMore(before: seq<u32>, mid: seq<u32>, after: seq<u32>, sz: nat, sz2: nat)
    requires Lately(before, mid, sz) && Lately(mid, after, sz2) && sz <= sz2
    ensures Lately(before, after, sz2)
  {
  }

  lemma WantedTwice(before: seq<u32>, mid: seq<u32>, size: nat, sz: nat, pos: nat, end: nat)
    requires Lately(before, mid, sz) && sz == Max(size, pos) && pos <= end
    ensures Wanted(before, size, end) == Wanted(before, size, pos) + Wanted(mid, sz, end)
  {
  }

  lemma StillLately(fs: FileSystem, ip: Inode, own2: map<nat, Slot>, before: seq<u32>, mid: seq<u32>, sz: nat, pos: nat, m: nat, sz2: u32)
    requires fs.Open(ip, sz2, own2) && Lately(before, mid, sz) && sz2 == Max(sz, pos + m) && 0 < m && pos % BSIZE + m <= BSIZE
    requires pos <= sz && (mid[NDIRECT] != 0 || pos / BSIZE < NDIRECT ==> ip.addrs[NDIRECT] == mid[NDIRECT])
    ensures Lately(before, ip.addrs, sz2)
  {
    if sz2 > BSIZE * NDIRECT {
      HasIndirect(fs.sb, fs.E(ip, sz2), own2, ip.inum);
    }
  }

  // ---------- writei ----------

  function WriteResult(size: u32, off: nat, n: nat): int {
    if off > size || (off + n) % TWO64 < off || off + n > MAXBYTES then -1 else n
  }

  // Where a write has got to: in the file, and in what it has logged.
  ghost predicate Progress(sb: Super, v0: Vol, w: Vol, own: map<nat, Slot>, i: nat, src: seq<byte>, off: nat, tot: nat,
                           l0: set<nat>, l: set<nat>, note: Note, before: seq<u32>, after: seq<u32>) {
    match w
    case Vol(used, inodes, data) =>
      && WroteTo(sb, v0, w, own, i, src, off, tot)
      && |before| == |after| == NDIRECT + 1
      && (off + tot <= v0.inodes[i].size ==> after == before)
      && (before[NDIRECT] != 0 ==> after[NDIRECT] == before[NDIRECT])
      && Touched(BitmapBlocks(sb), l0, l, note, before, after) && RoundsOk(off, tot, |src|, note.rounds, note.news)
  }

  // The memmove into the block and its log_write.
  method StoreChunk(fs: FileSystem, ip: Inode, addr: nat, at: nat, chunk: seq<byte>, ghost sz: u32, ghost sz2: u32)
    requires fs.Valid() && ip.inum < fs.sb.ninodes && Meta(fs.sb) <= addr < fs.disk.Length && at + |chunk| <= BSIZE
    modifies fs.disk, fs`logged
    ensures fs.E(ip, sz2) == Stored(old(fs.E(ip, sz)), ip.inum, addr, at, chunk, sz2) && fs.V().inodes == old(fs.V().inodes)
    ensures fs.Journaled() && fs.Room() == old(fs.Room())
    ensures fs.logged == old(fs.logged) + {addr}
  {
    var b: Block := Splice(fs.disk[addr], at, chunk);
    AbsData(fs.sb, fs.disk[..], addr, b);
    fs.LogWrite(addr, b);
  }

  lemma BmapFound(sb: Super, w: Vol, own: map<nat, Slot>, u: Vol, own2: map<nat, Slot>, i: nat, bn: nat, addr: nat)
    requires BmapDone(sb, w, own, u, own2, i, bn, addr)
    ensures Meta(sb) <= addr < |u.data|
  {
    assert OwnOk(sb, u, own2, addr);
  }

  // One round of writei's loop.
  method WriteRound(fs: FileSystem, ip: Inode, src: seq<byte>, off: nat, tot: nat, ghost own: map<nat, Slot>, ghost v0: Vol,
                    ghost l0: set<nat>, ghost note: Note, ghost before: seq<u32>, ghost sz: u32)
    returns (panicked: bool, m: nat, ghost own2: map<nat, Slot>, ghost note2: Note, ghost sz2: u32)
    requires fs.Open(ip, sz, own) && tot < |src| && off + |src| <= MAXBYTES
    requires Progress(fs.sb, v0, fs.E(ip, sz), own, ip.inum, src, off, tot, l0, fs.logged, note, before, ip.addrs)
    requires ip.inum < |v0.inodes| && Lately(before, ip.addrs, sz)
    modifies fs.disk, fs`logged, ip`addrs
    ensures fs.V().inodes == old(fs.V().inodes) && fs.Journaled()
    ensures panicked ==> forall c: nat | c < fs.sb.size :: c in fs.V().used
    ensures 0 < m && tot + m <= |src|
    ensures var size := v0.inodes[ip.inum].size;
            var k := Wanted(before, size, off + tot + m) - Wanted(before, size, off + tot);
            if panicked then old(fs.Room()) < k else fs.Room() == old(fs.Room()) - k
    ensures !panicked ==> fs.Open(ip, sz2, own2) && Lately(before, ip.addrs, sz2)
    ensures !panicked ==> Progress(fs.sb, v0, fs.E(ip, sz2), own2, ip.inum, src, off, tot + m, l0, fs.logged, note2, before, ip.addrs)
  {
    hide Progress, BmapDone, Sound, Shaped, Stored, Splice, With, Sized, Abs, WroteTo, Touched, RoundsOk, Inds, Made, Wanted, Takes,
         Lately, FreeBlocks;
    var pos := off + tot;
    ghost var w, l, mid := fs.E(ip, sz), fs.logged, ip.addrs;
    ProgressAt(fs.sb, v0, w, own, ip.inum, src, off, tot, l0, l, note, before, mid);
    var addr;
    ghost var bm;
    panicked, addr, own2, bm := fs.Bmap(ip, pos / BSIZE, own, sz);
    m, note2, sz2 := Min(|src| - tot, BSIZE - pos % BSIZE), note, sz;
    WantedMore(before, mid, v0.inodes[ip.inum].size, sz, pos, m);
    if !panicked {
      ghost var u := fs.E(ip, Grow(sz, pos / BSIZE));
      ghost var k := fs.logged;
      ghost var more := if sz > BSIZE * (pos / BSIZE) then 0 else 1;
      BmapFound(fs.sb, w, own, u, own2, ip.inum, pos / BSIZE, addr);
      sz2 := Max(sz, pos + m);
      note2 := Note(note.td + {addr}, note.tb + bm, note.rounds + 1, note.news + more);
      StoreChunk(fs, ip, addr, pos % BSIZE, src[tot..tot + m], Grow(sz, pos / BSIZE), sz2);
      ProgressMore(fs.sb, v0, w, own, u, own2, ip.inum, src, off, tot, l0, l, note, before, mid, ip.addrs, bm, more, addr, m,
                   k, fs.E(ip, sz2), note2);
      StillLately(fs, ip, own2, before, mid, sz, pos, m, sz2);
    }
  }

  lemma ProgressAt(sb: Super, v0: Vol, w: Vol, own: map<nat, Slot>, i: nat, src: seq<byte>, off: nat, tot: nat,
                   l0: set<nat>, l: set<nat>, note: Note, before: seq<u32>, after: seq<u32>)
    requires Progress(sb, v0, w, own, i, src, off, tot, l0, l, note, before, after)
    ensures Sound(sb, w, own) && i < |w.inodes| && off + tot <= w.inodes[i].size && off + tot <= MAXBYTES && tot <= |src|
    ensures |after| == NDIRECT + 1 && i < |v0.inodes| && w.inodes[i].size == Max(v0.inodes[i].size, off + tot)
  {
  }

  /** Writes the bytes of src at off, or refuses. Afterwards the file is the old one with src spliced
      in, every other file is as before, every block has its one owner, and the inode on the device
      is the one in memory. At most LogBound blocks have been logged. It panics exactly if fewer blocks
      are free than the file comes to need. */
  method Writei(fs: FileSystem, ip: Inode, src: seq<byte>, off: nat, ghost own: map<nat, Slot>)
    returns (panicked: bool, r: int, ghost own2: map<nat, Slot>, ghost touched: set<nat>)
    requires fs.Open(ip, ip.size, own) && fs.V().inodes[ip.inum] == ip.Din() && ip.typ != T_DEV
    requires off < TWO64 && |src| < TWO64
    modifies fs.disk, fs`logged, ip`addrs, ip`size
    ensures panicked ==> forall c: nat | c < fs.sb.size :: c in fs.V().used
    ensures |old(ip.addrs)| == NDIRECT + 1
    ensures var k := if WriteResult(old(ip.size), off, |src|) < 0 then 0 else Wanted(old(ip.addrs), old(ip.size), off + |src|);
            (panicked <==> old(fs.Room()) < k) && (!panicked ==> fs.Room() == old(fs.Room()) - k)
    ensures !panicked ==> Lately(old(ip.addrs), ip.addrs, ip.size)
    ensures fs.Journaled()
    ensures !panicked ==> r == WriteResult(old(ip.size), off, |src|)
    ensures !panicked ==> (r == -1 <==> off > old(ip.size) || off + |src| >= TWO64 || off + |src| > (12 + 128) * 512)
    ensures !panicked && r != -1 ==> r == |src|
    ensures !panicked && r < 0 ==> fs.Unchanged(ip)
    ensures !panicked && r >= 0 ==>
              && WroteTo(fs.sb, old(fs.V()), fs.V(), own2, ip.inum, src, off, |src|)
              && fs.V().inodes[ip.inum] == ip.Din()
              && fs.logged <= old(fs.logged) + touched && |touched| <= LogBound(Meta(fs.sb) - fs.sb.bmapstart, off, |src|)
  {
    hide Progress, Wanted, Lately, FreeBlocks, WroteTo, Sound, Abs, Shaped, BitmapBlocks, LogBound;
    panicked, r, own2, touched := false, -1, own, {};
    NothingWanted(fs, ip, own, 0);
    if !(off > ip.size || (off + |src|) % TWO64 < off || off + |src| > MAXBYTES) {
      ghost var v0, l0, before, sz := fs.V(), fs.logged, ip.addrs, ip.size;
      ghost var note := Note({}, {}, 0, 0);
      OnDevice(v0, ip.inum, ip.Din());
      assert fs.E(ip, sz) == v0;
      ProgressFirst(fs.sb, v0, own, ip.inum, src, off, l0, before);
      NothingWanted(fs, ip, own, off);
      var tot := 0;
      while tot < |src| && !panicked
        invariant fs.Journaled() && fs.V().inodes == v0.inodes && ip.Din().(addrs := before) == v0.inodes[ip.inum]
        invariant !panicked ==> tot <= |src| && fs.Open(ip, sz, own2)
        invariant !panicked ==> Progress(fs.sb, v0, fs.E(ip, sz), own2, ip.inum, src, off, tot, l0, fs.logged, note, before, ip.addrs)
        invariant panicked ==> forall c: nat | c < fs.sb.size :: c in fs.V().used
        invariant !panicked ==> Lately(before, ip.addrs, sz) && fs.Room() == old(fs.Room()) - Wanted(before, old(ip.size), off + tot)
        invariant panicked ==> old(fs.Room()) < Wanted(before, old(ip.size), off + |src|)
        decreases |src| - tot, !panicked
      {
        var m;
        panicked, m, own2, note, sz := WriteRound(fs, ip, src, off, tot, own2, v0, l0, note, before, sz);
        WantedGrows(before, old(ip.size), off + tot + m, off + |src|);
        if !panicked {
          tot := tot + m;
        }
      }
      if !panicked {
        touched := WriteEnd(fs, ip, src, off, own2, v0, l0, note, before, sz);
        r := |src|;
      }
    }
  }

  // The size and iupdate.
  method WriteEnd(fs: FileSystem, ip: Inode, src: seq<byte>, off: nat, ghost own: map<nat, Slot>, ghost v0: Vol,
                  ghost l0: set<nat>, ghost note: Note, ghost before: seq<u32>, ghost sz: u32)
    returns (ghost touched: set<nat>)
    requires fs.Open(ip, sz, own)
    requires Progress(fs.sb, v0, fs.E(ip, sz), own, ip.inum, src, off, |src|, l0, fs.logged, note, before, ip.addrs)
    requires fs.V().inodes == v0.inodes && v0.inodes[ip.inum] == ip.Din().(addrs := before)
    modifies fs.disk, fs`logged, ip`size
    ensures WroteTo(fs.sb, v0, fs.V(), own, ip.inum, src, off, |src|) && fs.V().inodes[ip.inum] == ip.Din()
    ensures fs.logged <= l0 + touched && |touched| <= LogBound(Meta(fs.sb) - fs.sb.bmapstart, off, |src|)
    ensures fs.Journaled() && fs.Room() == old(fs.Room()) && ip.size == sz
  {
    touched := note.td + note.tb + Inds(ip.addrs) + {IBlock(fs.sb, ip.inum)};
    TouchedBound(BitmapBlocks(fs.sb), off, |src|, l0, fs.logged, note, before, ip.addrs, IBlock(fs.sb, ip.inum));
    ghost var w := fs.E(ip, sz);
    EndSize(fs.sb, v0, w, own, ip.inum, src, off, l0, fs.logged, note, before, ip.addrs);
    var end := off + |src|;
    if |src| > 0 && end > ip.size {
      ip.size := end;
      fs.Iupdate(ip);
    } else {
      OnDevice(fs.V(), ip.inum, ip.Din());
    }
    assert fs.V() == w;
  }

  // An inode that is on the device already.
  lemma OnDevice(v: Vol, i: nat, din: Dinode)
    requires i < |v.inodes| && v.inodes[i] == din
    ensures With(v, i, din) == v && Sized(din, din.size) == din
  {
    assert v.inodes[i := din] == v.inodes;
  }

  lemma EndSize(sb: Super, v0: Vol, w: Vol, own: map<nat, Slot>, i: nat, src: seq<byte>, off: nat,
                l0: set<nat>, l: set<nat>, note: Note, before: seq<u32>, after: seq<u32>)
    requires Progress(sb, v0, w, own, i, src, off, |src|, l0, l, note, before, after)
    ensures i < sb.ninodes && Shaped(sb, v0) && |w.inodes| == sb.ninodes
    ensures w.inodes[i].size == Max(v0.inodes[i].size, off + |src|)
    ensures off + |src| <= v0.inodes[i].size ==> after == before
    ensures src == [] ==> off + |src| <= v0.inodes[i].size
  {
  }

  lemma TouchedBound(maps: set<nat>, off: nat, n: nat, l0: set<nat>, l: set<nat>, note: Note, before: seq<u32>, after: seq<u32>, ib: nat)
    requires Touched(maps, l0, l, note, before, after) && RoundsOk(off, n, n, note.rounds, note.news)
    ensures |note.td + note.tb + Inds(after) + {ib}| <= LogBound(|maps|, off, n)
    ensures l <= l0 + (note.td + note.tb + Inds(after) + {ib})
  {
    RoundsDone(off, n, note.rounds, note.news);
    Subset(note.tb, maps);
  }

  lemma ProgressFirst(sb: Super, v0: Vol, own: map<nat, Slot>, i: nat, src: seq<byte>, off: nat, l0: set<nat>, before: seq<u32>)
    requires Sound(sb, v0, own) && i < sb.ninodes && off <= v0.inodes[i].size && off <= MAXBYTES && |before| == NDIRECT + 1
    ensures Progress(sb, v0, v0, own, i, src, off, 0, l0, l0, Note({}, {}, 0, 0), before, before)
  {
  }

  lemma ProgressMore(sb: Super, v0: Vol, w: Vol, own: map<nat, Slot>, u: Vol, own2: map<nat, Slot>, i: nat, src: seq<byte>,
                     off: nat, tot: nat, l0: set<nat>, l: set<nat>, note: Note, before: seq<u32>, mid: seq<u32>, after: seq<u32>,
                     bm: set<nat>, more: nat, addr: nat, m: nat, k: set<nat>, x: Vol, note2: Note)
    requires Progress(sb, v0, w, own, i, src, off, tot, l0, l, note, before, mid) && tot < |src|
    requires m == Min(|src| - tot, BSIZE - (off + tot) % BSIZE) && off + |src| <= MAXBYTES
    requires BmapDone(sb, w, own, u, own2, i, (off + tot) / BSIZE, addr)
    requires more == (if w.inodes[i].size > BSIZE * ((off + tot) / BSIZE) then 0 else 1)
    requires more == 0 ==> after == mid
    requires |after| == NDIRECT + 1 && (mid[NDIRECT] != 0 ==> after[NDIRECT] == mid[NDIRECT])
    requires k <= l + bm + {addr} + Inds(after) && |bm| <= more + Made(mid, after) && bm <= BitmapBlocks(sb)
    requires x == Stored(u, i, addr, (off + tot) % BSIZE, src[tot..tot + m], Max(w.inodes[i].size, off + tot + m))
    requires note2 == Note(note.td + {addr}, note.tb + bm, note.rounds + 1, note.news + more)
    ensures m > 0 && tot + m <= |src| && Sound(sb, x, own2)
    ensures Progress(sb, v0, x, own2, i, src, off, tot + m, l0, k + {addr}, note2, before, after)
  {
    hide Sound, NewByte, ByteAt, Stored, SameBytes, Inds, Made;
    RoundsMore(off, tot, |src|, note.rounds, note.news, m, more);
    WroteMore(sb, v0, w, own, u, own2, i, src, off, tot, addr, m);
    TouchedMore(BitmapBlocks(sb), l0, l, note, before, mid, after, bm, more, addr, k + {addr});
  }

  // ---------- what writing means ----------

  function Spliced(c: seq<byte>, off: nat, src: seq<byte>): seq<byte>
    requires off <= |c|
  {
    c[..off] + src + (if off + |src| < |c| then c[off + |src|..] else [])
  }

  lemma SplicedAt(c: seq<byte>, off: nat, src: seq<byte>, o: nat)
    requires off <= |c|
    ensures |Spliced(c, off, src)| == Max(|c|, off + |src|)
    ensures o < |Spliced(c, off, src)| ==> Spliced(c, off, src)[o] == if off <= o < off + |src| then src[o - off] else c[o]
  {
  }

  lemma SplicedFile(sb: Super, v0: Vol, v: Vol, own: map<nat, Slot>, i: nat, src: seq<byte>, off: nat)
    requires WroteTo(sb, v0, v, own, i, src, off, |src|) && v0.inodes[i].size <= MAXBYTES
    ensures v.inodes[i].size <= MAXBYTES && Contents(v, i) == Spliced(Contents(v0, i), off, src)
  {
    var c, d := Contents(v0, i), Contents(v, i);
    SplicedAt(c, off, src, 0);
    forall o: nat | o < |d|
      ensures d[o] == Spliced(c, off, src)[o]
    {
      assert d[o] == ByteAt(v, i, o) == NewByte(v0, i, src, off, |src|, i, o);
      SplicedAt(c, off, src, o);
    }
  }

  /** The file afterwards is the old byte sequence with src spliced in at off; all others are the
      same byte sequences as before. */
  lemma WriteIsSplice(sb: Super, v0: Vol, v: Vol, own: map<nat, Slot>, i: nat, src: seq<byte>, off: nat, j: nat)
    requires WroteTo(sb, v0, v, own, i, src, off, |src|) && j < sb.ninodes
    requires v0.inodes[i].size <= MAXBYTES && v0.inodes[j].size <= MAXBYTES
    ensures Sound(sb, v, own) && v.inodes[j].size <= MAXBYTES
    ensures Contents(v, j) == if j == i then Spliced(Contents(v0, i), off, src) else Contents(v0, j)
  {
    if j == i {
      SplicedFile(sb, v0, v, own, i, src, off);
    } else {
      var c, d := Contents(v0, j), Contents(v, j);
      forall o: nat | o < |d|
        ensures d[o] == c[o]
      {
        assert d[o] == ByteAt(v, j, o) == NewByte(v0, i, src, off, |src|, j, o);
      }
    }
  }

  /** A write followed by any read: the bytes read are a slice of the old file with src spliced in,
      across the direct and indirect blocks and however the two ranges overlap. */
  method WriteThenRead(fs: FileSystem, ip: Inode, src: seq<byte>, off: nat, pos: nat, n: nat, ghost own: map<nat, Slot>)
    returns (panicked: bool, w: int, r: int, dst: seq<byte>)
    requires fs.Open(ip, ip.size, own) && fs.V().inodes[ip.inum] == ip.Din() && ip.typ != T_DEV
    requires off < TWO64 && |src| < TWO64 && pos < TWO64 && n < TWO64
    modifies fs.disk, fs`logged, ip`addrs, ip`size
    ensures |old(ip.addrs)| == NDIRECT + 1
    ensures var bad := off > old(ip.size) || off + |src| >= TWO64 || off + |src| > MAXBYTES;
            && (panicked <==> !bad && old(fs.Room()) < Wanted(old(ip.addrs), old(ip.size), off + |src|))
            && (!panicked ==> w == if bad then -1 else |src|)
    ensures panicked ==> forall c: nat | c < fs.sb.size :: c in fs.V().used
    ensures old(ip.size) <= MAXBYTES
    ensures !panicked && w >= 0 ==>
              var c := Spliced(Contents(old(fs.V()), ip.inum), off, src);
              && (r == -1 <==> pos > |c| || pos + n >= TWO64)
              && (r != -1 ==> r == |dst| && dst == c[pos..Min(pos + n, |c|)])
  {
    hide Wanted, FreeBlocks, Sound, WroteTo;
    ghost var v0 := fs.V();
    SizeFits(fs, ip, own);
    OnDevice(v0, ip.inum, ip.Din());
    ghost var own2, touched;
    panicked, w, own2, touched := Writei(fs, ip, src, off, own);
    r, dst := -1, [];
    if !panicked && w >= 0 {
      OnDevice(fs.V(), ip.inum, ip.Din());
      WriteIsSplice(fs.sb, v0, fs.V(), own2, ip.inum, src, off, ip.inum);
      r, dst := Readi(fs, ip, pos, n, own2);
    }
  }
}
