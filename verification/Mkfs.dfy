/** The image writer (user/src/mkfs/main.c): what it leaves is a volume as the kernel keeps it. */
module Mkfs {
  import opened Bytes
  import opened Layout
  import opened Volume
  import opened Fs
  import opened FsFile
  import opened FileWrite

  const NOINODE: Dinode := Dinode(0, 0, 0, 0, 0, [0, 0, 0, 0, 0, 0, 0, 0, 0, 0, 0, 0, 0])

  ghost function UpTo(n: nat): (r: set<nat>)
    ensures forall b: nat :: b in r <==> b < n
  {
    if n == 0 then {} else UpTo(n - 1) + {n - 1}
  }

  // Blocks from next on have never been written.
  ghost predicate Clean(sb: Super, v: Vol, next: nat) {
    match v
    case Vol(used, inodes, data) =>
      && Shaped(sb, v) && Meta(sb) <= next <= sb.size && used == UpTo(next)
      && (forall x | next <= x < |data| :: data[x] == ZeroBlock())
  }

  // Nor has a file's last block beyond its end; and its indirect block is there only if it is needed.
  ghost predicate Tight(v: Vol, i: nat) {
    i < |v.inodes| && DinodeOk(v.inodes[i]) && Spare(v.inodes[i].addrs[NDIRECT], v.inodes[i].size) &&
    forall o: nat {:trigger ByteAt(v, i, o)} | v.inodes[i].size <= o && o / BSIZE < MAXFILE && BSIZE * (o / BSIZE) < v.inodes[i].size ::
      ByteAt(v, i, o) == 0
  }

  predicate Spare(ind: u32, size: nat) {
    ind != 0 ==> size > BSIZE * NDIRECT
  }

  ghost predicate AllTight(v: Vol, n: nat) {
    forall j: nat {:trigger Tight(v, j)} | j < n :: Tight(v, j)
  }

  // v0 with the first tot bytes of p appended to file i.
  ghost predicate Appending(sb: Super, v0: Vol, w: Vol, own: map<nat, Slot>, i: nat, p: seq<byte>, tot: nat) {
    match w
    case Vol(_, _, _) =>
      i < |v0.inodes| && WroteTo(sb, v0, w, own, i, p, v0.inodes[i].size, tot) && AllTight(w, sb.ninodes)
  }

  lemma AppendingAt(sb: Super, v0: Vol, w: Vol, own: map<nat, Slot>, i: nat, p: seq<byte>, tot: nat)
    requires Appending(sb, v0, w, own, i, p, tot)
    ensures Sound(sb, w, own) && i < |w.inodes| == |v0.inodes| == sb.ninodes && tot <= |p|
    ensures w.inodes[i].size == v0.inodes[i].size + tot <= MAXBYTES
  {
  }

  lemma AppendingTight(sb: Super, v0: Vol, w: Vol, own: map<nat, Slot>, i: nat, p: seq<byte>, tot: nat)
    requires Appending(sb, v0, w, own, i, p, tot)
    ensures i < |w.inodes| && DinodeOk(w.inodes[i]) && Spare(w.inodes[i].addrs[NDIRECT], w.inodes[i].size)
  {
    assert Tight(w, i);
  }

  // Filling a file up leaves no rubbish behind its end, in no file.
  lemma TailStep(sb: Super, w: Vol, own: map<nat, Slot>, u: Vol, own2: map<nat, Slot>, i: nat, pos: nat, addr: nat, chunk: seq<byte>,
                 j: nat, o: nat)
    requires BmapDone(sb, w, own, u, own2, i, pos / BSIZE, addr) && Sound(sb, w, own) && AllTight(w, sb.ninodes)
    requires pos == w.inodes[i].size && |chunk| > 0 && pos % BSIZE + |chunk| <= BSIZE && pos + |chunk| <= MAXBYTES
    requires j < sb.ninodes && o / BSIZE < MAXFILE
    requires var size := if j == i then pos + |chunk| else w.inodes[j].size; size <= o && BSIZE * (o / BSIZE) < size
    ensures var x := Stored(u, i, addr, pos % BSIZE, chunk, pos + |chunk|);
            |x.inodes| == sb.ninodes && DinodeOk(x.inodes[j]) && ByteAt(x, j, o) == 0
  {
    var b := Splice(u.data[addr], pos % BSIZE, chunk);
    var y := u.(data := u.data[addr := b]);
    var x := Stored(u, i, addr, pos % BSIZE, chunk, pos + |chunk|);
    assert ByteAt(x, j, o) == ByteAt(y, j, o);
    WroteBytes(sb, u, own2, addr, b, j, o);
    if j == i {
      assert o / BSIZE == pos / BSIZE;
      OtherInBlock(pos, |chunk|, o);
      ByteOfBlock(sb, u, own2, i, addr, o);
      if pos > BSIZE * (pos / BSIZE) {
        assert Tight(w, i);
      }
    } else {
      assert Tight(w, j);
      assert ByteAt(u, j, o) == ByteAt(w, j, o);
    }
  }

  lemma AppendMore(sb: Super, v0: Vol, w: Vol, own: map<nat, Slot>, u: Vol, own2: map<nat, Slot>, i: nat, p: seq<byte>, tot: nat,
                   addr: nat, n1: nat)
    requires Appending(sb, v0, w, own, i, p, tot) && tot < |p| && v0.inodes[i].size + tot + n1 <= MAXBYTES
    requires BmapDone(sb, w, own, u, own2, i, (v0.inodes[i].size + tot) / BSIZE, addr)
    requires 0 < n1 && tot + n1 <= |p| && (v0.inodes[i].size + tot) % BSIZE + n1 <= BSIZE
    ensures var pos := v0.inodes[i].size + tot;
            Appending(sb, v0, Stored(u, i, addr, pos % BSIZE, p[tot..tot + n1], pos + n1), own2, i, p, tot + n1)
  {
    hide BmapDone, WroteTo;
    var pos := v0.inodes[i].size + tot;
    AppendingAt(sb, v0, w, own, i, p, tot);
    WroteMore(sb, v0, w, own, u, own2, i, p, v0.inodes[i].size, tot, addr, n1);
    TailsKept(sb, w, own, u, own2, i, pos, addr, p[tot..tot + n1]);
  }

  lemma TailsKept(sb: Super, w: Vol, own: map<nat, Slot>, u: Vol, own2: map<nat, Slot>, i: nat, pos: nat, addr: nat, chunk: seq<byte>)
    requires BmapDone(sb, w, own, u, own2, i, pos / BSIZE, addr) && Sound(sb, w, own) && AllTight(w, sb.ninodes)
    requires pos == w.inodes[i].size && |chunk| > 0 && pos % BSIZE + |chunk| <= BSIZE && pos + |chunk| <= MAXBYTES
    ensures AllTight(Stored(u, i, addr, pos % BSIZE, chunk, pos + |chunk|), sb.ninodes)
  {
    var x := Stored(u, i, addr, pos % BSIZE, chunk, pos + |chunk|);
    forall j: nat | j < sb.ninodes
      ensures Tight(x, j)
    {
      assert Tight(w, j) && SlotOk(sb, u, own2, sb.ninodes, j, NDIRECT);
      forall o: nat {:trigger ByteAt(x, j, o)} | x.inodes[j].size <= o && o / BSIZE < MAXFILE && BSIZE * (o / BSIZE) < x.inodes[j].size
        ensures ByteAt(x, j, o) == 0
      {
        TailStep(sb, w, own, u, own2, i, pos, addr, chunk, j, o);
      }
    }
  }

  // ---------- how many blocks a file takes ----------

  // Its data blocks, and an indirect block if it goes beyond the direct ones.
  function BlocksFor(n: nat): nat {
    (n + BSIZE - 1) / BSIZE + (if n > BSIZE * NDIRECT then 1 else 0)
  }

  // Those that are new when block fbn of a file of sz bytes is asked for.
  function Cost(sz: nat, fbn: nat): nat {
    if sz > BSIZE * fbn then 0 else if fbn == NDIRECT then 2 else 1
  }

  lemma CostIs(off: nat, n1: nat)
    requires 0 < n1 && off % BSIZE + n1 <= BSIZE
    ensures BlocksFor(off + n1) == BlocksFor(off) + Cost(off, off / BSIZE)
  {
    var q, d := off / BSIZE, off % BSIZE;
    assert off == BSIZE * q + d;
    assert (off + n1 + BSIZE - 1) / BSIZE == q + 1;
    assert (off + BSIZE - 1) / BSIZE == if d == 0 then q else q + 1;
  }

  lemma BlocksGrow(a: nat, b: nat)
    requires a <= b
    ensures BlocksFor(a) <= BlocksFor(b)
  {
  }

  // The blocks of all files.
  function Total(cs: seq<seq<byte>>): nat {
    if cs == [] then 0 else BlocksFor(|cs[0]|) + Total(cs[1..])
  }

  lemma {:induction false} TotalUpdate(cs: seq<seq<byte>>, i: nat, c: seq<byte>)
    requires i < |cs|
    ensures Total(cs[i := c]) == Total(cs) - BlocksFor(|cs[i]|) + BlocksFor(|c|)
    decreases |cs|
  {
    if i > 0 {
      TotalUpdate(cs[1..], i - 1, c);
      assert cs[i := c][1..] == cs[1..][i - 1 := c];
    } else {
      assert cs[0 := c][1..] == cs[1..];
    }
  }

  lemma {:induction false} TotalGrows(cs: seq<seq<byte>>, ds: seq<seq<byte>>)
    requires |cs| == |ds| && forall i | 0 <= i < |cs| :: |cs[i]| <= |ds[i]|
    ensures Total(cs) <= Total(ds)
    decreases |cs|
  {
    if cs != [] {
      BlocksGrow(|cs[0]|, |ds[0]|);
      TotalGrows(cs[1..], ds[1..]);
    }
  }

  lemma {:induction false} TotalNone(cs: seq<seq<byte>>)
    requires forall i | 0 <= i < |cs| :: cs[i] == []
    ensures Total(cs) == 0
    decreases |cs|
  {
    if cs != [] {
      TotalNone(cs[1..]);
    }
  }

  lemma CleanFits(sb: Super, v: Vol, next: nat)
    requires Clean(sb, v, next)
    ensures Meta(sb) <= next <= sb.size
  {
  }

  lemma CleanInode(sb: Super, v: Vol, next: nat, i: nat, din: Dinode)
    requires Clean(sb, v, next) && i < sb.ninodes && DinodeOk(din)
    ensures Clean(sb, With(v, i, din), next)
  {
  }

  lemma AppendFirst(sb: Super, v0: Vol, own: map<nat, Slot>, i: nat, p: seq<byte>, next: nat)
    requires Sound(sb, v0, own) && AllTight(v0, sb.ninodes) && i < sb.ninodes && Clean(sb, v0, next)
    ensures Appending(sb, v0, v0, own, i, p, 0) && v0.inodes[i].size <= MAXBYTES && |v0.inodes| == sb.ninodes
  {
  }

  lemma AppendLast(sb: Super, v0: Vol, w: Vol, own: map<nat, Slot>, i: nat, p: seq<byte>)
    requires Appending(sb, v0, w, own, i, p, |p|)
    ensures WroteTo(sb, v0, w, own, i, p, v0.inodes[i].size, |p|) && AllTight(w, sb.ninodes) && Sound(sb, w, own)
  {
  }

  // A block in use may be written.
  lemma StoreKeepsClean(sb: Super, v: Vol, next: nat, u: Vol, own: map<nat, Slot>, i: nat, addr: nat, at: nat, chunk: seq<byte>)
    requires Clean(sb, v, next) && Sound(sb, u, own) && addr in own && u.used == v.used && u.data == v.data
    requires at + |chunk| <= BSIZE
    ensures addr < |v.data| && Clean(sb, v.(data := v.data[addr := Splice(v.data[addr], at, chunk)]), next)
  {
    assert OwnOk(sb, u, own, addr);
  }

  ghost predicate Blank(v: Vol, next: nat) {
    forall i | next <= i < |v.inodes| :: v.inodes[i] == NOINODE
  }

  const ROOTINO := 1

  // The root is a directory, the others are files.
  function KindOf(i: nat): u16 { if i == ROOTINO then T_DIR else T_FILE }

  // Inodes 1 .. n - 1 are in use, each with one link.
  ghost predicate Kinds(v: Vol, n: nat) {
    match v
    case Vol(_, inodes, _) =>
      n <= |inodes| && forall i | 1 <= i < n :: inodes[i] == Dinode(KindOf(i), 0, 0, 1, inodes[i].size, inodes[i].addrs)
  }

  lemma KindsMore(v: Vol, inum: nat, din: Dinode)
    requires Kinds(v, inum) && inum < |v.inodes| && din == Dinode(KindOf(inum), 0, 0, 1, din.size, din.addrs)
    ensures Kinds(With(v, inum, din), inum + 1)
  {
  }

  lemma KindsKept(v: Vol, w: Vol, n: nat, i: nat)
    requires Kinds(v, n) && i < |w.inodes| == |v.inodes|
    requires forall j | 0 <= j < |v.inodes| && j != i :: w.inodes[j] == v.inodes[j]
    requires w.inodes[i] == v.inodes[i].(addrs := w.inodes[i].addrs, size := w.inodes[i].size)
    ensures Kinds(w, n)
  {
  }

  lemma IallocSound(sb: Super, v: Vol, own: map<nat, Slot>, cs: seq<seq<byte>>, next: nat, inum: nat, typ: u16)
    requires Clean(sb, v, next) && Sound(sb, v, own) && AllTight(v, sb.ninodes) && Files(sb, v, cs)
    requires inum < sb.ninodes && Blank(v, inum)
    ensures var w := With(v, inum, NOINODE.(typ := typ, nlink := 1));
            Clean(sb, w, next) && Sound(sb, w, own) && AllTight(w, sb.ninodes) && Files(sb, w, cs) && Blank(w, inum + 1) && cs[inum] == []
  {
    var din := NOINODE.(typ := typ, nlink := 1);
    var w := With(v, inum, din);
    CleanInode(sb, v, next, inum, din);
    forall j: nat, l: nat | j < sb.ninodes && l < SLOTS
      ensures Ptr(w, j, l) == Ptr(v, j, l) && SlotOk(sb, w, own, sb.ninodes, j, l)
    {
      assert SlotOk(sb, v, own, sb.ninodes, j, l);
    }
    forall c: nat | c in own
      ensures OwnOk(sb, w, own, c)
    {
      assert OwnOk(sb, v, own, c);
    }
    forall j: nat | j < sb.ninodes
      ensures Tight(w, j) && w.inodes[j].size <= MAXBYTES && cs[j] == Contents(w, j)
    {
      assert Tight(v, j);
      forall o: nat {:trigger ByteAt(w, j, o)} | o / BSIZE < MAXFILE
        ensures ByteAt(w, j, o) == ByteAt(v, j, o)
      {
      }
      assert Contents(w, j) == Contents(v, j);
    }
  }

  lemma AppendedFiles(sb: Super, v: Vol, w: Vol, own: map<nat, Slot>, i: nat, p: seq<byte>, cs: seq<seq<byte>>)
    requires Files(sb, v, cs) && i < sb.ninodes && WroteTo(sb, v, w, own, i, p, v.inodes[i].size, |p|)
    ensures Files(sb, w, cs[i := cs[i] + p])
  {
    FilesAfter(sb, v, w, own, i, p, v.inodes[i].size, cs);
    assert Spliced(cs[i], |cs[i]|, p) == cs[i] + p;
  }

  class Image {
    const sb: Super
    const disk: array<Block>
    var freeblock: nat
    var freeinode: nat

    constructor (sb: Super, disk: array<Block>)
      requires SuperOk(sb, disk.Length)
      ensures this.sb == sb && this.disk == disk && freeblock == Meta(sb) && freeinode == 1
    {
      this.sb, this.disk, freeblock, freeinode := sb, disk, Meta(sb), 1;
    }

    // The volume with the blocks given out so far counted as used: mkfs writes the bitmap last.
    ghost function V(): (v: Vol)
      requires SuperOk(sb, disk.Length)
      reads this, disk
      ensures |v.inodes| == sb.ninodes && |v.data| == disk.Length
    {
      Abs(sb, disk[..]).(used := UpTo(freeblock))
    }

    // The bits really set in the bitmap, and the super block.
    ghost function U(): (set<nat>, Block)
      requires SuperOk(sb, disk.Length)
      reads this, disk
    {
      (Abs(sb, disk[..]).used, disk[1])
    }

    // With the inode that iappend holds in place, its size taken as sz.
    ghost function E(i: nat, din: Dinode, sz: u32): Vol
      requires SuperOk(sb, disk.Length) && i < sb.ninodes
      reads this, disk
    {
      With(V(), i, Sized(din, sz))
    }

    ghost predicate Open(i: nat, din: Dinode, sz: u32, own: map<nat, Slot>)
      reads this, disk
    {
      && SuperOk(sb, disk.Length) && i < sb.ninodes && DinodeOk(din)
      && Clean(sb, V(), freeblock) && Sound(sb, E(i, din, sz), own)
    }

    // din.addrs[k] = freeblock++. Main does not check that the block is inside the image; it is
    // followed only as long as it is.
    method GivePointer(i: nat, din: Dinode, k: nat, ghost own: map<nat, Slot>, ghost sz: u32, ghost sz2: u32)
      returns (full: bool, din2: Dinode)
      requires Open(i, din, sz, own) && k <= NDIRECT
      requires !(freeblock >= sb.size) ==> CanGive(sb, E(i, din, sz), own, i, k, freeblock, sz2)
      modifies this`freeblock
      ensures full <==> old(freeblock) >= sb.size
      ensures full ==> din2 == din && freeblock == old(freeblock)
      ensures !full ==> freeblock == old(freeblock) + 1 && |din.addrs| == NDIRECT + 1 && din2 == din.(addrs := din.addrs[k := old(freeblock)])
      ensures !full ==> Clean(sb, V(), freeblock) && old(freeblock) < disk.Length
                        && E(i, din2, sz2) == GavePtr(old(E(i, din, sz)), i, k, old(freeblock), sz2)
    {
      full, din2 := freeblock >= sb.size, din;
      if !full {
        ghost var v, b := E(i, din, sz), freeblock;
        assert v.data[b] == ZeroBlock() && v.data[b := ZeroBlock()] == v.data;
        din2 := din.(addrs := din.addrs[k := freeblock]);
        freeblock := freeblock + 1;
        assert UpTo(b + 1) == UpTo(b) + {b};
        assert E(i, din2, sz2) == GavePtr(v, i, k, b, sz2);
      }
    }
  
    // wsect of a data block
    method Wsect(x: nat, b: Block)
      requires SuperOk(sb, disk.Length) && Meta(sb) <= x < disk.Length
      modifies disk
      ensures V() == old(V()).(data := old(V()).data[x := b]) && U() == old(U())
    {
      AbsData(sb, disk[..], x, b);
      disk[x] := b;
    }

    // The block of file block fbn, direct.
    method DirectBlock(i: nat, din: Dinode, fbn: nat, ghost own: map<nat, Slot>, ghost sz: u32)
      returns (full: bool, din2: Dinode, x: nat, ghost own2: map<nat, Slot>)
      requires Open(i, din, sz, own) && fbn < NDIRECT && BSIZE * fbn <= sz
      modifies this`freeblock
      ensures full <==> old(freeblock) + Cost(sz, fbn) > sb.size
      ensures !full ==> freeblock == old(freeblock) + Cost(sz, fbn)
      ensures DinodeOk(din2) && din2 == din.(addrs := din2.addrs)
      ensures !full ==> Clean(sb, V(), freeblock)
                        && BmapDone(sb, old(E(i, din, sz)), own, E(i, din2, Grow(sz, fbn)), own2, i, fbn, x)
    {
      hide Abs, BmapDone;
      ghost var v := E(i, din, sz);
      assert SlotOk(sb, v, own, sb.ninodes, i, fbn);
      full, din2, own2, x := false, din, own, din.addrs[fbn];
      if x == 0 {
        x := freeblock;
        full, din2 := GivePointer(i, din, fbn, own, sz, BSIZE * fbn + 1);
        if !full {
          own2 := own[x := Slot(i, fbn)];
          BmapDirectNew(sb, v, own, i, fbn, x);
        }
      } else {
        BmapOld(sb, v, own, i, fbn);
      }
    }

    // The indirect block.
    method IndirectBlock(i: nat, din: Dinode, fbn: nat, ghost own: map<nat, Slot>, ghost sz: u32)
      returns (full: bool, din2: Dinode, ghost own2: map<nat, Slot>)
      requires Open(i, din, sz, own) && NDIRECT <= fbn < MAXFILE && BSIZE * fbn <= sz
      modifies this`freeblock
      ensures full <==> din.addrs[NDIRECT] == 0 && old(freeblock) >= sb.size
      ensures !full ==> freeblock == old(freeblock) + (if din.addrs[NDIRECT] == 0 then 1 else 0)
      ensures DinodeOk(din2) && din2 == din.(addrs := din2.addrs)
      ensures !full ==> Clean(sb, V(), freeblock) && IndirectDone(sb, old(E(i, din, sz)), own, E(i, din2, sz), own2, i)
    {
      ghost var v := E(i, din, sz);
      IndirectThere(sb, v, own, i, fbn);
      full, din2, own2 := false, din, own;
      if din.addrs[NDIRECT] == 0 {
        var x := freeblock;
        full, din2 := GivePointer(i, din, NDIRECT, own, sz, sz);
        if !full {
          own2 := own[x := Slot(i, NDIRECT)];
          IndirectNew(sb, v, own, i, x);
        }
      } else {
        IndirectOld(sb, v, own, i);
      }
    }

    // The entry in the indirect block.
    method EntryBlock(i: nat, din: Dinode, fbn: nat, ghost own: map<nat, Slot>, ghost sz: u32)
      returns (full: bool, x: nat, ghost own2: map<nat, Slot>)
      requires Open(i, din, sz, own) && NDIRECT <= fbn < MAXFILE && BSIZE * fbn <= sz
      requires din.addrs[NDIRECT] != 0 && Meta(sb) <= din.addrs[NDIRECT] < disk.Length
      modifies this`freeblock, disk
      ensures full <==> sz <= BSIZE * fbn && old(freeblock) >= sb.size
      ensures !full ==> freeblock == old(freeblock) + (if sz <= BSIZE * fbn then 1 else 0)
      ensures V().inodes == old(V().inodes) && U() == old(U())
      ensures !full ==> Clean(sb, V(), freeblock) && BmapDone(sb, old(E(i, din, sz)), own, E(i, din, Grow(sz, fbn)), own2, i, fbn, x)
    {
      ghost var v := E(i, din, sz);
      assert SlotOk(sb, v, own, sb.ninodes, i, fbn + 1);
      var ind := din.addrs[NDIRECT];
      var indirect := disk[ind];
      assert v.data[ind] == indirect;
      hide Abs, BmapDone;
      full, own2, x := false, own, Word(indirect, fbn - NDIRECT);
      if x == 0 {
        full := freeblock >= sb.size;
        if !full {
          x := freeblock;
          IndirectUsed(sb, v, own, i);
          BmapEntryNew(sb, v, own, i, fbn, x);
          own2 := own[x := Slot(i, fbn + 1)];
          assert v.data[x := ZeroBlock()] == v.data;
          freeblock := freeblock + 1;
          Wsect(ind, PutWord(indirect, fbn - NDIRECT, x));
          assert E(i, din, Grow(sz, fbn)) == GaveEntry(v, i, fbn + 1, x, BSIZE * fbn + 1);
        }
      } else {
        BmapOld(sb, v, own, i, fbn);
      }
    }

    // The block of file block fbn, made if need be.
    method FileBlock(i: nat, din: Dinode, fbn: nat, ghost own: map<nat, Slot>, ghost sz: u32)
      returns (full: bool, din2: Dinode, x: nat, ghost own2: map<nat, Slot>)
      requires Open(i, din, sz, own) && fbn < MAXFILE && BSIZE * fbn <= sz && Spare(din.addrs[NDIRECT], sz)
      modifies this`freeblock, disk
      ensures full <==> old(freeblock) + Cost(sz, fbn) > sb.size
      ensures !full ==> freeblock == old(freeblock) + Cost(sz, fbn)
      ensures DinodeOk(din2) && din2 == din.(addrs := din2.addrs) && V().inodes == old(V().inodes) && U() == old(U())
      ensures !full ==> Clean(sb, V(), freeblock)
                        && BmapDone(sb, old(E(i, din, sz)), own, E(i, din2, Grow(sz, fbn)), own2, i, fbn, x)
    {
      if fbn < NDIRECT {
        full, din2, x, own2 := DirectBlock(i, din, fbn, own, sz);
      } else {
        ghost var v := E(i, din, sz);
        IndirectThere(sb, v, own, i, fbn);
        full, din2, own2 := IndirectBlock(i, din, fbn, own, sz);
        x := 0;
        if !full {
          ghost var w, own1 := E(i, din2, sz), own2;
          IndirectAt(sb, v, own, w, own1, i);
          full, x, own2 := EntryBlock(i, din2, fbn, own1, sz);
          if !full {
            BmapThrough(sb, v, own, w, own1, E(i, din2, Grow(sz, fbn)), own2, i, fbn, x);
          }
        }
      }
    }

    // Between calls: the volume is sound but for the bitmap, which is not written yet.
    ghost predicate Ready(own: map<nat, Slot>)
      reads this, disk
    {
      && SuperOk(sb, disk.Length) && Clean(sb, V(), freeblock) && Sound(sb, V(), own)
      && AllTight(V(), sb.ninodes)
    }

    // Copying a chunk into a block.
    method StoreChunk(i: nat, din: Dinode, x: nat, at: nat, chunk: seq<byte>, ghost sz: u32, ghost sz2: u32)
      requires SuperOk(sb, disk.Length) && i < sb.ninodes && DinodeOk(din) && Meta(sb) <= x < disk.Length && at + |chunk| <= BSIZE
      modifies disk
      ensures E(i, din, sz2) == Stored(old(E(i, din, sz)), i, x, at, chunk, sz2) && V().inodes == old(V().inodes)
      ensures V().used == old(V().used) && V().data == old(V().data)[x := Splice(old(V().data)[x], at, chunk)] && U() == old(U())
    {
      Wsect(x, Splice(disk[x], at, chunk));
    }

    // What iappend has got to after tot bytes of p.
    ghost predicate Appended(v0: Vol, i: nat, din: Dinode, p: seq<byte>, tot: nat, own: map<nat, Slot>)
      reads this, disk
    {
      && SuperOk(sb, disk.Length) && i < |v0.inodes| == sb.ninodes && DinodeOk(din) && Clean(sb, V(), freeblock)
      && v0.inodes[i].size + tot <= MAXBYTES && V().inodes == v0.inodes && din == v0.inodes[i].(addrs := din.addrs)
      && Appending(sb, v0, E(i, din, v0.inodes[i].size + tot), own, i, p, tot)
    }

    // One round of iappend's loop.
    method AppendRound(i: nat, din: Dinode, p: seq<byte>, tot: nat, off: nat, ghost v0: Vol, ghost own: map<nat, Slot>)
      returns (aborted: bool, din2: Dinode, n1: nat, ghost own2: map<nat, Slot>)
      requires Appended(v0, i, din, p, tot, own) && tot < |p| && off == v0.inodes[i].size + tot
      modifies this`freeblock, disk
      ensures 0 < n1 <= |p| - tot
      ensures aborted ==> off >= MAXBYTES || old(freeblock) + BlocksFor(off + n1) - BlocksFor(off) > sb.size
      ensures !aborted ==> Appended(v0, i, din2, p, tot + n1, own2) && U() == old(U())
      ensures !aborted ==> freeblock == old(freeblock) + BlocksFor(off + n1) - BlocksFor(off)
    {
      hide Appending, Clean, BmapDone, Abs, Sound, Shaped;
      var fbn := off / BSIZE;
      n1 := Min(|p| - tot, (fbn + 1) * BSIZE - off);
      ghost var w := E(i, din, off);
      AppendingAt(sb, v0, w, own, i, p, tot);
      CostIs(off, n1);
      AppendingTight(sb, v0, w, own, i, p, tot);
      aborted, din2, own2 := !(fbn < MAXFILE), din, own;
      if !aborted {
        var x;
        aborted, din2, x, own2 := FileBlock(i, din, fbn, own, off);
        if !aborted {
          ghost var u := E(i, din2, Grow(off, fbn));
          BmapFound(sb, w, own, u, own2, i, fbn, x);
          AppendMore(sb, v0, w, own, u, own2, i, p, tot, x, n1);
          StoreKeepsClean(sb, V(), freeblock, u, own2, i, x, off - fbn * BSIZE, p[tot..tot + n1]);
          StoreChunk(i, din2, x, off - fbn * BSIZE, p[tot..tot + n1], Grow(off, fbn), off + n1);
        }
      }
    }

    // winode
    method Winode(i: nat, din: Dinode)
      requires SuperOk(sb, disk.Length) && i < sb.ninodes && DinodeOk(din)
      modifies disk
      ensures V() == With(old(V()), i, din) && U() == old(U())
    {
      Regions(sb, disk.Length);
      AbsInode(sb, disk[..], i, din);
      disk[IBlock(sb, i)] := PutDinode(disk[IBlock(sb, i)], i % IPB, din);
    }

    /** Appends the bytes of p to file i, taking as many blocks as it comes to need. It stops only at a
        file beyond the maximal size, or when the image is full, which main itself does not notice. */
    method Iappend(i: nat, p: seq<byte>, ghost own: map<nat, Slot>) returns (aborted: bool, ghost own2: map<nat, Slot>)
      requires Ready(own) && i < sb.ninodes
      modifies this`freeblock, disk
      ensures var n := old(V()).inodes[i].size;
              && (aborted <==> n + |p| > MAXBYTES || old(freeblock) + BlocksFor(n + |p|) - BlocksFor(n) > sb.size)
              && (!aborted ==> freeblock == old(freeblock) + BlocksFor(n + |p|) - BlocksFor(n))
      ensures !aborted ==> Ready(own2) && U() == old(U())
      ensures !aborted ==> WroteTo(sb, old(V()), V(), own2, i, p, old(V()).inodes[i].size, |p|)
      ensures !aborted ==> V().inodes[i] == old(V()).inodes[i].(addrs := V().inodes[i].addrs, size := old(V()).inodes[i].size + |p|)
    {
      hide Appending, Clean, BlocksFor, WroteTo;
      Regions(sb, disk.Length);
      ghost var v0 := V();
      var din := GetDinode(disk[IBlock(sb, i)], i % IPB);
      OnDevice(v0, i, din);
      assert E(i, din, din.size) == v0;
      AppendFirst(sb, v0, own, i, p, freeblock);
      aborted, own2 := false, own;
      var off, tot := din.size, 0;
      while tot < |p| && !aborted
        invariant tot <= |p| && off == v0.inodes[i].size + tot
        invariant aborted ==> v0.inodes[i].size + |p| > MAXBYTES
                              || old(freeblock) + BlocksFor(v0.inodes[i].size + |p|) - BlocksFor(v0.inodes[i].size) > sb.size
        invariant !aborted ==> Appended(v0, i, din, p, tot, own2) && U() == old(U())
        invariant !aborted ==> freeblock == old(freeblock) + BlocksFor(off) - BlocksFor(v0.inodes[i].size)
        decreases |p| - tot, !aborted
      {
        var n1;
        aborted, din, n1, own2 := AppendRound(i, din, p, tot, off, v0, own2);
        BlocksGrow(off + n1, v0.inodes[i].size + |p|);
        off, tot := off + n1, tot + n1;
      }
      if !aborted {
        ghost var w := E(i, din, off);
        CleanFits(sb, V(), freeblock);
        AppendLast(sb, v0, w, own2, i, p);
        CleanInode(sb, V(), freeblock, i, Sized(din, off));
        Winode(i, Sized(din, off));
        assert V() == w;
      }
    }

    // What main has built so far: sound, unused inodes blank, the files' kinds and bytes, and no block
    // given out but for them.
    ghost predicate Built(own: map<nat, Slot>, cs: seq<seq<byte>>)
      reads this, disk
    {
      && Ready(own) && U() == ({}, PutSuper(sb, disk.Length)) && Files(sb, V(), cs) && Kinds(V(), freeinode)
      && 1 <= freeinode <= sb.ninodes <= 0x1_0000 && Blank(V(), freeinode)
      && freeblock == Meta(sb) + Total(cs)
    }

    // The image has no room for these files.
    ghost predicate Full(cs: seq<seq<byte>>) {
      sb.nblocks <= sb.size && Meta(sb) + Total(cs) > sb.size
    }

    /** The next inode, of that type, with one link and no bytes. */
    method Ialloc(typ: u16, ghost own: map<nat, Slot>, ghost cs: seq<seq<byte>>) returns (inum: nat)
      requires Built(own, cs) && freeinode < sb.ninodes && typ == KindOf(freeinode)
      modifies this`freeinode, disk
      ensures inum == old(freeinode) && freeinode == inum + 1 && Built(own, cs)
      ensures cs[inum] == [] && V() == With(old(V()), inum, NOINODE.(typ := typ, nlink := 1))
    {
      ghost var v := V();
      inum := freeinode;
      IallocSound(sb, v, own, cs, freeblock, inum, typ);
      KindsMore(v, inum, NOINODE.(typ := typ, nlink := 1));
      freeinode := freeinode + 1;
      Winode(inum, NOINODE.(typ := typ, nlink := 1));
    }

    // One iappend, seen from the files' bytes.
    method AppendTo(i: nat, p: seq<byte>, ghost own: map<nat, Slot>, ghost cs: seq<seq<byte>>)
      returns (aborted: bool, ghost own2: map<nat, Slot>)
      requires Built(own, cs) && i < freeinode
      modifies this`freeblock, disk
      ensures aborted ==> |cs[i]| + |p| > MAXBYTES || Full(cs[i := cs[i] + p])
      ensures !aborted ==> Built(own2, cs[i := cs[i] + p])
    {
      hide WroteTo, Files, Kinds, Blank, Abs, UpTo, Clean, Sound, AllTight, Total;
      ghost var v := V();
      BuiltAt(own, cs, i);
      aborted, own2 := Iappend(i, p, own);
      TotalUpdate(cs, i, cs[i] + p);
      if !aborted {
        ghost var w := V();
        AppendedFiles(sb, v, w, own2, i, p, cs);
        OthersKept(sb, v, w, own2, i, p, freeinode);
      }
    }

    lemma BuiltAt(own: map<nat, Slot>, cs: seq<seq<byte>>, i: nat)
      requires Built(own, cs) && i < sb.ninodes
      ensures i < |cs| == |V().inodes| == sb.ninodes && V().inodes[i].size == |cs[i]| <= MAXBYTES && sb.nblocks <= sb.size
      ensures Ready(own) && freeblock == Meta(sb) + Total(cs) <= sb.size
    {
    }

    // File i, empty in cs, has got the first k bytes of p.
    ghost predicate Filled(i: nat, p: seq<byte>, k: nat, own: map<nat, Slot>, cs: seq<seq<byte>>)
      reads this, disk
    {
      i < |cs| && i < freeinode && k <= |p| && Built(own, cs[i := p[..k]])
    }

    // It may have stopped on the way.
    ghost predicate Reading(i: nat, p: seq<byte>, k: nat, own: map<nat, Slot>, cs: seq<seq<byte>>, aborted: bool)
      reads this, disk
    {
      if aborted then i < |cs| && (|p| > MAXBYTES || Full(cs[i := p])) else Filled(i, p, k, own, cs)
    }

    // One read and its iappend.
    method AppendPiece(i: nat, p: seq<byte>, k: nat, ghost own: map<nat, Slot>, ghost cs: seq<seq<byte>>)
      returns (aborted: bool, next: nat, ghost own2: map<nat, Slot>)
      requires Reading(i, p, k, own, cs, false) && k < |p|
      modifies this`freeblock, disk
      ensures k < next <= |p| && Reading(i, p, next, own2, cs, aborted)
    {
      hide Built, Full;
      next := k + Min(BSIZE, |p| - k);
      ghost var ds := cs[i := p[..k]];
      PieceAt(i, p, k, next, cs);
      FullGrows(i, p, next, cs);
      aborted, own2 := AppendTo(i, p[k..next], own, ds);
    }

    lemma PieceAt(i: nat, p: seq<byte>, k: nat, next: nat, cs: seq<seq<byte>>)
      requires i < |cs| && k <= next <= |p|
      ensures var ds := cs[i := p[..k]];
              |ds[i]| + |p[k..next]| == next && ds[i := ds[i] + p[k..next]] == cs[i := p[..next]]
    {
      var ds := cs[i := p[..k]];
      assert p[..k] + p[k..next] == p[..next];
      assert ds[i := p[..next]] == cs[i := p[..next]];
    }

    // If part of the file does not fit, the file does not.
    lemma FullGrows(i: nat, p: seq<byte>, k: nat, cs: seq<seq<byte>>)
      requires i < |cs| && k <= |p|
      ensures Full(cs[i := p[..k]]) ==> Full(cs[i := p])
    {
      TotalGrows(cs[i := p[..k]], cs[i := p]);
    }

    lemma ReadingFirst(i: nat, p: seq<byte>, own: map<nat, Slot>, cs: seq<seq<byte>>)
      requires Built(own, cs) && i < freeinode
      ensures i < |cs| && (cs[i] == [] ==> Reading(i, p, 0, own, cs, false))
    {
      assert p[..0] == [];
      assert cs[i] == [] ==> cs[i := p[..0]] == cs;
    }

    lemma ReadingLast(i: nat, p: seq<byte>, k: nat, own: map<nat, Slot>, cs: seq<seq<byte>>, aborted: bool)
      requires Reading(i, p, k, own, cs, aborted) && (k == |p| || aborted)
      ensures i < |cs| && if aborted then |p| > MAXBYTES || Full(cs[i := p]) else Built(own, cs[i := p])
    {
      assert p[..|p|] == p;
    }

    // The reads of 512 bytes and their iappends.
    method AppendAll(i: nat, p: seq<byte>, ghost own: map<nat, Slot>, ghost cs: seq<seq<byte>>)
      returns (aborted: bool, ghost own2: map<nat, Slot>)
      requires Built(own, cs) && i < freeinode && cs[i] == []
      modifies this`freeblock, disk
      ensures aborted ==> |p| > MAXBYTES || Full(cs[i := p])
      ensures !aborted ==> Built(own2, cs[i := p])
    {
      ReadingFirst(i, p, own, cs);
      hide *;
      aborted, own2 := false, own;
      var k := 0;
      while k < |p| && !aborted
        invariant k <= |p| && Reading(i, p, k, own2, cs, aborted)
        decreases |p| - k, !aborted
      {
        aborted, k, own2 := AppendPiece(i, p, k, own2, cs);
      }
      ReadingLast(i, p, k, own2, cs, aborted);
    }
  }

  // The other inodes stay, and this one gets a size and pointers.
  lemma OthersKept(sb: Super, v: Vol, w: Vol, own2: map<nat, Slot>, i: nat, p: seq<byte>, n: nat)
    requires Kinds(v, n) && Blank(v, n) && i < n <= |v.inodes| == sb.ninodes && i < |w.inodes|
    requires WroteTo(sb, v, w, own2, i, p, v.inodes[i].size, |p|)
    requires w.inodes[i] == v.inodes[i].(addrs := w.inodes[i].addrs, size := v.inodes[i].size + |p|)
    ensures Kinds(w, n) && Blank(w, n)
  {
    KindsKept(v, w, n, i);
  }

  // The indirect block of a file is in use.
  lemma IndirectUsed(sb: Super, v: Vol, own: map<nat, Slot>, i: nat)
    requires Sound(sb, v, own) && i < sb.ninodes && v.inodes[i].addrs[NDIRECT] != 0
    ensures v.inodes[i].addrs[NDIRECT] in v.used
  {
    assert SlotOk(sb, v, own, sb.ninodes, i, NDIRECT);
    assert OwnOk(sb, v, own, v.inodes[i].addrs[NDIRECT]);
  }
}
