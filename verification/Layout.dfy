/** The on-disk format of the file system (inc/fs.h): block bitmap and inode table. */
module Layout {
  import opened Bits
  import opened Bytes
  import opened Device

  const NDIRECT := 12
  const NINDIRECT := 128
  const MAXFILE := NDIRECT + NINDIRECT
  const IPB := 8
  const BPB := 4096

  const T_DIR := 1
  const T_FILE := 2
  const T_DEV := 3

  datatype Dinode = Dinode(typ: u16, major: u16, minor: u16, nlink: u16, size: u32, addrs: seq<u32>)

  predicate DinodeOk(din: Dinode) { |din.addrs| == NDIRECT + 1 }

  // The super block's layout: log, inode blocks, bitmap blocks, then nblocks data blocks.
  datatype Super = Super(size: nat, nblocks: nat, ninodes: nat, nlog: nat, logstart: nat, inodestart: nat, bmapstart: nat)

  function Meta(sb: Super): nat
    requires sb.nblocks <= sb.size
  {
    sb.size - sb.nblocks
  }

  predicate SuperOk(sb: Super, n: nat) {
    && sb.nblocks <= sb.size <= n && sb.size < 0x1_0000_0000
    && 1 < sb.logstart && sb.logstart + sb.nlog <= sb.inodestart <= sb.bmapstart <= Meta(sb)
    && sb.ninodes < 0x1_0000_0000
    && sb.ninodes <= IPB * (sb.bmapstart - sb.inodestart)
    && sb.size <= BPB * (Meta(sb) - sb.bmapstart)
  }

  function IBlock(sb: Super, i: nat): nat { i / IPB + sb.inodestart }

  function BBlock(sb: Super, b: nat): nat { b / BPB + sb.bmapstart }

  lemma Regions(sb: Super, n: nat)
    requires SuperOk(sb, n)
    ensures forall i: nat | i < sb.ninodes :: sb.inodestart <= IBlock(sb, i) < sb.bmapstart
    ensures forall b: nat | b < sb.size :: sb.bmapstart <= BBlock(sb, b) < Meta(sb) <= n
  {
  }

  // ---------- the super block ----------

  // Its seven words at the start of block 1.
  function PutSuper(sb: Super, n: nat): Block
    requires SuperOk(sb, n)
  {
    var b := PutWord(PutWord(PutWord(ZeroBlock(), 0, sb.size), 1, sb.nblocks), 2, sb.ninodes);
    PutWord(PutWord(PutWord(PutWord(b, 3, sb.nlog), 4, sb.logstart), 5, sb.inodestart), 6, sb.bmapstart)
  }

  // readsb
  function GetSuper(b: Block): Super {
    Super(Word(b, 0), Word(b, 1), Word(b, 2), Word(b, 3), Word(b, 4), Word(b, 5), Word(b, 6))
  }

  /** readsb reads back what mkfs wrote. */
  lemma SuperBack(sb: Super, n: nat)
    requires SuperOk(sb, n)
    ensures GetSuper(PutSuper(sb, n)) == sb
  {
  }

  // ---------- inodes ----------

  function Addrs(b: Block, o: nat): seq<u32>
    requires o + 52 <= BSIZE
  {
    seq(NDIRECT + 1, k requires 0 <= k < NDIRECT + 1 => Get32(b, o + 4 * k))
  }

  function GetDinode(b: Block, s: nat): Dinode
    requires s < IPB
  {
    var o := 64 * s;
    Dinode(Get16(b, o), Get16(b, o + 2), Get16(b, o + 4), Get16(b, o + 6), Get32(b, o + 8), Addrs(b, o + 12))
  }

  // memmove of the first k addresses
  function PutAddrs(b: Block, o: nat, addrs: seq<u32>, k: nat): (r: Block)
    requires o + 52 <= BSIZE && k <= |addrs| <= NDIRECT + 1
    ensures forall j: nat | j < BSIZE && !(o <= j < o + 4 * k) :: r[j] == b[j]
    ensures forall j: nat | j < k :: Get32(r, o + 4 * j) == addrs[j]
  {
    if k == 0 then b
    else
      var p := PutAddrs(b, o, addrs, k - 1);
      var r: Block := Put32(p, o + 4 * (k - 1), addrs[k - 1]);
      assert forall j: nat | j < k - 1 :: Get32(r, o + 4 * j) == addrs[j] by {
        forall j: nat | j < k - 1
          ensures Get32(r, o + 4 * j) == addrs[j]
        {
          Get32Frame(r, p, o + 4 * j);
        }
      }
      r
  }

  // iupdate's stores into the inode's slot
  function PutDinode(b: Block, s: nat, din: Dinode): Block
    requires s < IPB && DinodeOk(din)
  {
    var o := 64 * s;
    var b1: Block := Put16(b, o, din.typ);
    var b2: Block := Put16(b1, o + 2, din.major);
    var b3: Block := Put16(b2, o + 4, din.minor);
    var b4: Block := Put16(b3, o + 6, din.nlink);
    var b5: Block := Put32(b4, o + 8, din.size);
    PutAddrs(b5, o + 12, din.addrs, NDIRECT + 1)
  }

  lemma Get16Frame(a: seq<byte>, b: seq<byte>, o: nat)
    requires o + 2 <= |a| && o + 2 <= |b| && a[o] == b[o] && a[o + 1] == b[o + 1]
    ensures Get16(a, o) == Get16(b, o)
  {
  }

  // Only the slot's 64 bytes change.
  lemma PutDinodeFrame(b: Block, s: nat, din: Dinode)
    requires s < IPB && DinodeOk(din)
    ensures forall j: nat | j < BSIZE && !(64 * s <= j < 64 * s + 64) :: PutDinode(b, s, din)[j] == b[j]
  {
  }

  lemma PutDinodeSelf(b: Block, s: nat, din: Dinode)
    requires s < IPB && DinodeOk(din)
    ensures GetDinode(PutDinode(b, s, din), s) == din
  {
    var o := 64 * s;
    var b1: Block := Put16(b, o, din.typ);
    var b2: Block := Put16(b1, o + 2, din.major);
    var b3: Block := Put16(b2, o + 4, din.minor);
    var b4: Block := Put16(b3, o + 6, din.nlink);
    var b5: Block := Put32(b4, o + 8, din.size);
    var r := PutDinode(b, s, din);
    Get16Frame(r, b1, o);
    Get16Frame(r, b2, o + 2);
    Get16Frame(r, b3, o + 4);
    Get16Frame(r, b4, o + 6);
    Get32Frame(r, b5, o + 8);
    assert Addrs(r, o + 12) == din.addrs;
  }

  lemma PutDinodeOther(b: Block, s: nat, din: Dinode, t: nat)
    requires s < IPB && t < IPB && t != s && DinodeOk(din)
    ensures GetDinode(PutDinode(b, s, din), t) == GetDinode(b, t)
  {
    var r := PutDinode(b, s, din);
    PutDinodeFrame(b, s, din);
    SameDinode(r, b, t);
  }

  lemma SameDinode(r: Block, b: Block, t: nat)
    requires t < IPB && forall j: nat | 64 * t <= j < 64 * t + 64 :: r[j] == b[j]
    ensures GetDinode(r, t) == GetDinode(b, t)
  {
    var o := 64 * t;
    Get32Frame(r, b, o + 8);
    forall k: nat | k < NDIRECT + 1
      ensures Get32(r, o + 12 + 4 * k) == Get32(b, o + 12 + 4 * k)
    {
      Get32Frame(r, b, o + 12 + 4 * k);
    }
    assert Addrs(r, o + 12) == Addrs(b, o + 12);
  }

  // ---------- the bitmap ----------

  // bp->data[bi / 8] & (1 << bi % 8)
  predicate GetBit(b: Block, bi: nat)
    requires bi < BPB
  {
    Bit(b[bi / 8], bi % 8)
  }

  function SetBit(b: Block, bi: nat): Block
    requires bi < BPB
  {
    MaskFits(b[bi / 8], bi % 8);
    b[bi / 8 := Or(b[bi / 8], Power2(bi % 8))]
  }

  function DropBit(b: Block, bi: nat): Block
    requires bi < BPB
  {
    ClearBit(b[bi / 8], bi % 8, 0);
    b[bi / 8 := Clear(b[bi / 8], bi % 8)]
  }

  lemma MaskFits(x: byte, k: nat)
    requires k < 8
    ensures Or(x, Power2(k)) < 0x100
  {
    MaskSmall(k);
    OrBound(x, Power2(k), 8, 0x100);
  }

  lemma MaskSmall(k: nat)
    requires k < 8
    ensures Power2(k) < 0x100 == Power2(8)
  {
    assert Power2(8) == 2 * Power2(7) == 4 * Power2(6) == 8 * Power2(5) == 16 * Power2(4) == 32 * Power2(3)
        == 64 * Power2(2) == 128 * Power2(1) == 256 * Power2(0);
    if k == 0 {
    } else if k == 1 {
    } else if k == 2 {
    } else if k == 3 {
    } else if k == 4 {
    } else if k == 5 {
    } else if k == 6 {
    } else {
    }
  }

  lemma SetBitAt(b: Block, bi: nat, c: nat)
    requires bi < BPB && c < BPB
    ensures GetBit(SetBit(b, bi), c) <==> GetBit(b, c) || c == bi
  {
    if c / 8 == bi / 8 {
      OrBit(b[bi / 8], Power2(bi % 8), c % 8);
      Power2Bit(bi % 8, c % 8);
    }
  }

  lemma DropBitAt(b: Block, bi: nat, c: nat)
    requires bi < BPB && c < BPB
    ensures GetBit(DropBit(b, bi), c) <==> GetBit(b, c) && c != bi
  {
    if c / 8 == bi / 8 {
      ClearBit(b[bi / 8], bi % 8, c % 8);
    }
  }

  // ---------- the whole device ----------

  predicate Used(sb: Super, d: Disk, b: nat)
    requires SuperOk(sb, |d|) && b < sb.size
  {
    Regions(sb, |d|);
    GetBit(d[BBlock(sb, b)], b % BPB)
  }

  function DinodeAt(sb: Super, d: Disk, i: nat): Dinode
    requires SuperOk(sb, |d|) && i < sb.ninodes
  {
    Regions(sb, |d|);
    GetDinode(d[IBlock(sb, i)], i % IPB)
  }

  // What the device means: the blocks in use, the inodes, and the data blocks.
  datatype Vol = Vol(used: set<nat>, inodes: seq<Dinode>, data: seq<Block>)

  ghost function Abs(sb: Super, d: Disk): Vol
    requires SuperOk(sb, |d|)
  {
    Vol(set b: nat | b < sb.size && Used(sb, d, b),
        seq(sb.ninodes, i requires 0 <= i < sb.ninodes => DinodeAt(sb, d, i)),
        seq(|d|, x requires 0 <= x < |d| => DataAt(sb, d, x)))
  }

  // Metadata blocks do not count as data.
  function DataAt(sb: Super, d: Disk, x: nat): Block
    requires SuperOk(sb, |d|) && x < |d|
  {
    if x < Meta(sb) then ZeroBlock() else d[x]
  }

  // Writing a data block.
  lemma AbsData(sb: Super, d: Disk, x: nat, v: Block)
    requires SuperOk(sb, |d|) && Meta(sb) <= x < |d|
    ensures Abs(sb, d[x := v]) == Abs(sb, d).(data := Abs(sb, d).data[x := v])
  {
    Regions(sb, |d|);
    var e := d[x := v];
    assert forall b: nat | b < sb.size :: Used(sb, e, b) == Used(sb, d, b);
    assert forall i: nat | i < sb.ninodes :: DinodeAt(sb, e, i) == DinodeAt(sb, d, i);
  }

  // Writing a bitmap block with one bit changed.
  lemma AbsSet(sb: Super, d: Disk, b: nat)
    requires SuperOk(sb, |d|) && b < sb.size
    ensures BBlock(sb, b) < |d|
    ensures var e := d[BBlock(sb, b) := SetBit(d[BBlock(sb, b)], b % BPB)];
            Abs(sb, e) == Abs(sb, d).(used := Abs(sb, d).used + {b})
  {
    Regions(sb, |d|);
    var e := d[BBlock(sb, b) := SetBit(d[BBlock(sb, b)], b % BPB)];
    forall c: nat | c < sb.size
      ensures Used(sb, e, c) <==> Used(sb, d, c) || c == b
    {
      if BBlock(sb, c) == BBlock(sb, b) {
        SetBitAt(d[BBlock(sb, b)], b % BPB, c % BPB);
      }
    }
    assert Abs(sb, e).used == Abs(sb, d).used + {b};
    assert forall i: nat | i < sb.ninodes :: DinodeAt(sb, e, i) == DinodeAt(sb, d, i);
  }

  lemma AbsDrop(sb: Super, d: Disk, b: nat)
    requires SuperOk(sb, |d|) && b < sb.size
    ensures BBlock(sb, b) < |d|
    ensures var e := d[BBlock(sb, b) := DropBit(d[BBlock(sb, b)], b % BPB)];
            Abs(sb, e) == Abs(sb, d).(used := Abs(sb, d).used - {b})
  {
    Regions(sb, |d|);
    var e := d[BBlock(sb, b) := DropBit(d[BBlock(sb, b)], b % BPB)];
    forall c: nat | c < sb.size
      ensures Used(sb, e, c) <==> Used(sb, d, c) && c != b
    {
      if BBlock(sb, c) == BBlock(sb, b) {
        DropBitAt(d[BBlock(sb, b)], b % BPB, c % BPB);
      }
    }
    assert Abs(sb, e).used == Abs(sb, d).used - {b};
    assert forall i: nat | i < sb.ninodes :: DinodeAt(sb, e, i) == DinodeAt(sb, d, i);
  }

  // Writing an inode block with one inode changed.
  lemma AbsInode(sb: Super, d: Disk, i: nat, din: Dinode)
    requires SuperOk(sb, |d|) && i < sb.ninodes && DinodeOk(din)
    ensures IBlock(sb, i) < |d|
    ensures var e := d[IBlock(sb, i) := PutDinode(d[IBlock(sb, i)], i % IPB, din)];
            Abs(sb, e) == Abs(sb, d).(inodes := Abs(sb, d).inodes[i := din])
  {
    Regions(sb, |d|);
    var e := d[IBlock(sb, i) := PutDinode(d[IBlock(sb, i)], i % IPB, din)];
    forall j: nat | j < sb.ninodes
      ensures DinodeAt(sb, e, j) == if j == i then din else DinodeAt(sb, d, j)
    {
      if j == i {
        PutDinodeSelf(d[IBlock(sb, i)], i % IPB, din);
      } else if IBlock(sb, j) == IBlock(sb, i) {
        PutDinodeOther(d[IBlock(sb, i)], i % IPB, din, j % IPB);
      }
    }
    assert forall b: nat | b < sb.size :: Used(sb, e, b) == Used(sb, d, b);
  }
}
