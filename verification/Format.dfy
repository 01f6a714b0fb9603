/** The on-disk format of inc/fs.h and kern/log.c, byte for byte: little-endian fields at fixed places. */
module Format {
  import opened Bits
  import opened Bytes
  import opened Device
  import opened Layout
  import opened Volume
  import opened FsFile
  import opened Directory
  import opened Redo

  function Le16(b: seq<byte>, o: nat): nat
    requires o + 2 <= |b|
  {
    b[o] as int + 256 * (b[o + 1] as int)
  }

  function Le32(b: seq<byte>, o: nat): nat
    requires o + 4 <= |b|
  {
    b[o] as int + 256 * (b[o + 1] as int) + 65536 * (b[o + 2] as int) + 16777216 * (b[o + 3] as int)
  }

  /** struct superblock */
  lemma SuperBytes(sb: Super, n: nat, k: nat)
    requires SuperOk(sb, n) && k < 7
    ensures Le32(PutSuper(sb, n), 4 * k)
         == [sb.size, sb.nblocks, sb.ninodes, sb.nlog, sb.logstart, sb.inodestart, sb.bmapstart][k]
  {
    assert Le32(PutSuper(sb, n), 4 * k) == Word(PutSuper(sb, n), k);
  }

  // struct dinode
  ghost predicate DinodeBytes(b: seq<byte>, o: nat, din: Dinode) {
    && o + 64 <= |b| && DinodeOk(din)
    && Le16(b, o) == din.typ && Le16(b, o + 2) == din.major && Le16(b, o + 4) == din.minor && Le16(b, o + 6) == din.nlink
    && Le32(b, o + 8) == din.size && forall k: nat | k < 13 :: Le32(b, o + 12 + 4 * k) == din.addrs[k]
  }

  lemma SlotBytes(b: Block, s: nat)
    requires s < 8
    ensures DinodeBytes(b, 64 * s, GetDinode(b, s))
  {
    forall k: nat | k < 13
      ensures Le32(b, 64 * s + 12 + 4 * k) == GetDinode(b, s).addrs[k]
    {
      assert Addrs(b, 64 * s + 12)[k] == Get32(b, 64 * s + 12 + 4 * k);
    }
  }

  /** Inode i is 64 bytes of block inodestart + i / 8, the eighth of it that i % 8 says. */
  lemma InodeBytes(sb: Super, d: Disk, i: nat)
    requires SuperOk(sb, |d|) && i < sb.ninodes
    ensures sb.inodestart + i / 8 < |d| && DinodeBytes(d[sb.inodestart + i / 8], 64 * (i % 8), Abs(sb, d).inodes[i])
  {
    Regions(sb, |d|);
    SlotBytes(d[IBlock(sb, i)], i % 8);
  }

  // Bits counted from the lowest
  lemma BitIs(x: nat, k: nat)
    requires k < 8
    ensures Bit(x, k) <==> x / [1, 2, 4, 8, 16, 32, 64, 128][k] % 2 == 1
  {
    var a, b, c, d, e, f, g := x / 2, x / 4, x / 8, x / 16, x / 32, x / 64, x / 128;
    assert a / 2 == b && b / 2 == c && c / 2 == d && d / 2 == e && e / 2 == f && f / 2 == g;
    assert k > 0 ==> Bit(x, k) == Bit(a, k - 1);
    assert k > 1 ==> Bit(a, k - 1) == Bit(b, k - 2);
    assert k > 2 ==> Bit(b, k - 2) == Bit(c, k - 3);
    assert k > 3 ==> Bit(c, k - 3) == Bit(d, k - 4);
    assert k > 4 ==> Bit(d, k - 4) == Bit(e, k - 5);
    assert k > 5 ==> Bit(e, k - 5) == Bit(f, k - 6);
    assert k > 6 ==> Bit(f, k - 6) == Bit(g, k - 7);
  }

  /** Block b is in use if its bit is set: bit b % 8, counted from the lowest, of its byte in the bitmap. */
  lemma BitmapBytes(sb: Super, d: Disk, b: nat)
    requires SuperOk(sb, |d|) && b < sb.size
    ensures sb.bmapstart + b / 4096 < |d|
    ensures b in Abs(sb, d).used <==>
              d[sb.bmapstart + b / 4096][b % 4096 / 8] / [1, 2, 4, 8, 16, 32, 64, 128][b % 8] % 2 == 1
  {
    Regions(sb, |d|);
    assert b % 4096 % 8 == b % 8;
    BitIs(d[BBlock(sb, b)][b % 4096 / 8], b % 8);
  }

  // A pointer that the size needs is a block of the volume.
  lemma FilePtr(sb: Super, v: Vol, own: map<nat, Slot>, i: nat, k: nat)
    requires Sound(sb, v, own) && i < sb.ninodes && k < SLOTS
    requires if k == 12 then v.inodes[i].size > 6144 else Need(v.inodes[i].size, k)
    ensures 0 < Ptr(v, i, k) < |v.data|
  {
    assert SlotOk(sb, v, own, sb.ninodes, i, k);
    assert OwnOk(sb, v, own, Ptr(v, i, k));
  }

  /** Byte o of a file is in the block that addrs[o / 512] names; from the twelfth block on, in that
      which the indirect block, addrs[12], names. */
  lemma FileBytes(sb: Super, v: Vol, own: map<nat, Slot>, i: nat, o: nat)
    requires Sound(sb, v, own) && i < sb.ninodes && o < v.inodes[i].size
    ensures v.inodes[i].size <= MAXBYTES && |v.inodes[i].addrs| == 13
    ensures var a := v.inodes[i].addrs;
            var k := o / 512;
            if k < 12 then a[k] < |v.data| && Contents(v, i)[o] == v.data[a[k]][o % 512]
            else
              && a[12] < |v.data| && 4 * (k - 12) + 4 <= 512
              && Le32(v.data[a[12]], 4 * (k - 12)) < |v.data|
              && Contents(v, i)[o] == v.data[Le32(v.data[a[12]], 4 * (k - 12))][o % 512]
  {
    FilePtr(sb, v, own, i, SlotOf(o / 512));
    if o / 512 >= 12 {
      FilePtr(sb, v, own, i, 12);
    }
  }

  /** struct dirent, as it is read and as it is written */
  lemma EntryFields(c: seq<byte>, k: nat)
    requires 16 * k + 16 <= |c|
    ensures k < Count(c) && Inum(c, k) == Le16(c, 16 * k) && Name(c, k) == c[16 * k + 2..16 * k + 16]
  {
  }

  lemma EntryWritten(name: seq<byte>, inum: u16, k: nat)
    requires k < 14
    ensures Le16(EntryBytes(name, inum), 0) == inum
    ensures k < |name| && (forall j: nat | j <= k :: name[j] != 0) ==> EntryBytes(name, inum)[2 + k] == name[k]
    ensures k >= |name| || (exists j: nat | j <= k :: name[j] == 0) ==> EntryBytes(name, inum)[2 + k] == 0
  {
    if NulBefore(name, k) {
      var j: nat :| j < k && At(name, j) == 0;
      assert j >= |name| || name[j] == 0;
    } else {
      if j: nat :| j <= k && j < |name| && name[j] == 0 {
        assert At(name, j) == 0;
      }
    }
  }

  /** struct logheader */
  lemma HeadBytes(b: Block, lh: seq<u32>, k: nat)
    requires |lh| <= 30 && k < |lh|
    ensures Le32(HeadBlock(b, lh), 0) == |lh| && Le32(HeadBlock(b, lh), 4 + 4 * k) == lh[k]
  {
    HeadBlockAt(b, lh);
    assert Le32(HeadBlock(b, lh), 0) == Word(HeadBlock(b, lh), 0);
    assert Le32(HeadBlock(b, lh), 4 + 4 * k) == Word(HeadBlock(b, lh), k + 1);
  }

  /** The log: sector k + 1 behind its header for the k-th block, each number counted from the partition's
      start. */
  lemma CommitSectors(g: Geometry, v: Disk, lh: seq<u32>, k: nat)
    requires Placed(g, lh, |v|) && lh != [] && k < |lh|
    ensures var ws := CommitWrites(g, v, lh);
            && |ws| == 2 * |lh| + 2 && ws[k].sector == g.lba + g.start + 1 + k && ws[|lh|].sector == g.lba + g.start
            && ws[|lh| + 1 + k].sector == lh[k] + g.lba && ws[2 * |lh| + 1].sector == g.lba + g.start
  {
  }
}
