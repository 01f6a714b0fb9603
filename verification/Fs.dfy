/** Blocks, inodes and file contents as kern/fs.c keeps them, on the blocks that bread shows. */
module Fs {
  import opened Bytes
  import opened Device
  import opened Layout
  import opened Volume

  // The in-memory copy of an inode.
  class Inode {
    const inum: nat
    var typ: u16
    var major: u16
    var minor: u16
    var nlink: u16
    var size: u32
    var addrs: seq<u32>

    constructor (inum: nat)
      ensures this.inum == inum && Din() == Dinode(0, 0, 0, 0, 0, seq(NDIRECT + 1, _ => 0))
    {
      this.inum := inum;
      typ, major, minor, nlink, size := 0, 0, 0, 0, 0;
      addrs := seq(NDIRECT + 1, _ => 0);
    }

    function Din(): Dinode
      reads this
    {
      Dinode(typ, major, minor, nlink, size, addrs)
    }
  }

  // The volume after balloc has given out b.
  ghost function Taken(v: Vol, b: nat): Vol
    requires b < |v.data|
  {
    Vol(v.used + {b}, v.inodes, v.data[b := ZeroBlock()])
  }

  function Grow(sz: u32, bn: nat): u32
    requires bn < MAXFILE
  {
    if sz > BSIZE * bn then sz else BSIZE * bn + 1
  }

  // bmap has found or made block bn of inode i: v became w.
  ghost predicate BmapDone(sb: Super, v: Vol, own: map<nat, Slot>, w: Vol, own2: map<nat, Slot>, i: nat, bn: nat, addr: nat) {
    match w
    case Vol(used, inodes, data) =>
      && Shaped(sb, v) && i < sb.ninodes && bn < MAXFILE
      && Sound(sb, w, own2) && addr in own2 && own2[addr] == Slot(i, SlotOf(bn)) && addr < |data|
      && inodes[i].size == Grow(v.inodes[i].size, bn)
      && (forall j | 0 <= j < sb.ninodes && j != i :: inodes[j] == v.inodes[j])
      && SameBytes(v, w, sb.ninodes)
      && (if v.inodes[i].size > BSIZE * bn then w == v && own2 == own else data[addr] == ZeroBlock())
  }

  // The block was there.
  lemma BmapOld(sb: Super, v: Vol, own: map<nat, Slot>, i: nat, bn: nat)
    requires Sound(sb, v, own) && i < sb.ninodes && bn < MAXFILE && v.inodes[i].size > BSIZE * bn
    ensures Ptr(v, i, SlotOf(bn)) != 0 && BmapDone(sb, v, own, v, own, i, bn, Ptr(v, i, SlotOf(bn)))
  {
    assert SlotOk(sb, v, own, sb.ninodes, i, SlotOf(bn));
    assert OwnOk(sb, v, own, Ptr(v, i, SlotOf(bn)));
  }

  // Or it is just beyond the end of the file, and b is free.
  ghost predicate AtEnd(sb: Super, v: Vol, own: map<nat, Slot>, i: nat, bn: nat, b: nat) {
    match v
    case Vol(used, inodes, data) =>
      Sound(sb, v, own) && i < sb.ninodes && bn < MAXFILE && inodes[i].size == BSIZE * bn
      && b !in used && b < sb.size && b < |data|
  }

  lemma BmapDirectNew(sb: Super, v: Vol, own: map<nat, Slot>, i: nat, bn: nat, b: nat)
    requires AtEnd(sb, v, own, i, bn, b) && bn < NDIRECT
    ensures BmapDone(sb, v, own, GavePtr(v, i, bn, b, BSIZE * bn + 1), own[b := Slot(i, bn)], i, bn, b)
  {
    GavePtrSound(sb, v, own, i, bn, b, BSIZE * bn + 1);
    GavePtrBytes(sb, v, own, i, bn, b, BSIZE * bn + 1);
  }

  lemma BmapEntryNew(sb: Super, v: Vol, own: map<nat, Slot>, i: nat, bn: nat, b: nat)
    requires AtEnd(sb, v, own, i, bn, b) && bn >= NDIRECT
    requires v.inodes[i].addrs[NDIRECT] != 0 && v.inodes[i].addrs[NDIRECT] < |v.data|
    ensures BmapDone(sb, v, own, GaveEntry(v, i, bn + 1, b, BSIZE * bn + 1), own[b := Slot(i, bn + 1)], i, bn, b)
  {
    GaveEntrySound(sb, v, own, i, bn + 1, b, BSIZE * bn + 1);
    GaveEntryBytes(sb, v, own, i, bn + 1, b, BSIZE * bn + 1);
    assert SlotOk(sb, v, own, sb.ninodes, i, NDIRECT);
    FreeBlock(sb, v, own, sb.ninodes, b);
  }

  // The indirect block is made first; no file byte is in it.
  ghost predicate IndirectDone(sb: Super, v: Vol, own: map<nat, Slot>, w: Vol, own2: map<nat, Slot>, i: nat) {
    match w
    case Vol(used, inodes, data) =>
      && Shaped(sb, v) && i < sb.ninodes && Sound(sb, w, own2)
      && inodes[i].size == v.inodes[i].size
      && inodes[i].addrs[NDIRECT] != 0 && inodes[i].addrs[NDIRECT] < |data|
      && (forall j | 0 <= j < sb.ninodes && j != i :: inodes[j] == v.inodes[j])
      && SameBytes(v, w, sb.ninodes)
      && (v.inodes[i].addrs[NDIRECT] != 0 ==> w == v && own2 == own)
  }

  lemma IndirectOld(sb: Super, v: Vol, own: map<nat, Slot>, i: nat)
    requires Sound(sb, v, own) && i < sb.ninodes && v.inodes[i].addrs[NDIRECT] != 0
    ensures IndirectDone(sb, v, own, v, own, i)
  {
    assert SlotOk(sb, v, own, sb.ninodes, i, NDIRECT);
    assert OwnOk(sb, v, own, v.inodes[i].addrs[NDIRECT]);
  }

  lemma IndirectNew(sb: Super, v: Vol, own: map<nat, Slot>, i: nat, b: nat)
    requires AtEnd(sb, v, own, i, NDIRECT, b) && v.inodes[i].addrs[NDIRECT] == 0
    ensures IndirectDone(sb, v, own, GavePtr(v, i, NDIRECT, b, BSIZE * NDIRECT), own[b := Slot(i, NDIRECT)], i)
  {
    FreeBlock(sb, v, own, sb.ninodes, b);
    GavePtrSound(sb, v, own, i, NDIRECT, b, BSIZE * NDIRECT);
    GavePtrBytes(sb, v, own, i, NDIRECT, b, BSIZE * NDIRECT);
  }

  lemma BmapThrough(sb: Super, u: Vol, own0: map<nat, Slot>, v: Vol, own: map<nat, Slot>, w: Vol, own2: map<nat, Slot>,
                    i: nat, bn: nat, addr: nat)
    requires Sound(sb, u, own0) && IndirectDone(sb, u, own0, v, own, i) && BmapDone(sb, v, own, w, own2, i, bn, addr)
    requires u.inodes[i].size > BSIZE * bn ==> u.inodes[i].addrs[NDIRECT] != 0
    ensures BmapDone(sb, u, own0, w, own2, i, bn, addr)
  {
  }

  ghost function BitmapBlocks(sb: Super): set<nat>
    requires sb.nblocks <= sb.size
  {
    Interval(sb.bmapstart, Meta(sb))
  }

  ghost function Interval(a: nat, b: nat): (r: set<nat>)
    ensures forall x: nat :: x in r <==> a <= x < b
    ensures |r| == if a <= b then b - a else 0
    decreases b - a
  {
    if a < b then {a} + Interval(a + 1, b) else {}
  }

  ghost function FreeBlocks(sb: Super, v: Vol): set<nat> {
    set b: nat | b < sb.size && b !in v.used
  }

  lemma SameRoom(sb: Super, v: Vol, w: Vol)
    requires v.used == w.used
    ensures FreeBlocks(sb, v) == FreeBlocks(sb, w)
  {
  }

  // One block less is free.
  lemma OneTaken(sb: Super, v: Vol, b: nat)
    requires b < sb.size && b < |v.data| && b !in v.used
    ensures |FreeBlocks(sb, Taken(v, b))| == |FreeBlocks(sb, v)| - 1
  {
    assert FreeBlocks(sb, v) == FreeBlocks(sb, Taken(v, b)) + {b};
  }

  lemma NoneFree(sb: Super, v: Vol)
    requires forall c: nat | c < sb.size :: c in v.used
    ensures FreeBlocks(sb, v) == {}
  {
  }

  // How many blocks bmap takes for block bn of a file of sz bytes.
  function Takes(addrs: seq<u32>, sz: nat, bn: nat): nat
    requires |addrs| == NDIRECT + 1
  {
    if sz > BSIZE * bn then 0 else if bn >= NDIRECT && addrs[NDIRECT] == 0 then 2 else 1
  }

  class FileSystem {
    const sb: Super
    const disk: array<Block>
    // the blocks given to log_write since the operation began, and in each finished operation, and the
    // device at the end of each
    ghost var logged: set<nat>
    ghost var finished: seq<set<nat>>
    ghost var images: seq<Disk>

    constructor (sb: Super, disk: array<Block>)
      requires SuperOk(sb, disk.Length)
      ensures this.sb == sb && this.disk == disk && Valid() && logged == {} && finished == [] && images == []
    {
      this.sb, this.disk, this.logged, this.finished, this.images := sb, disk, {}, [], [];
    }

    // Every block that differs was given to log_write.
    twostate predicate Journaled()
      reads this, disk
    {
      && old(logged) <= logged
      && forall x | 0 <= x < disk.Length && disk[x] != old(disk[x]) :: x in logged
    }

    // And only bitmap blocks were.
    twostate predicate MapsLogged()
      reads this, disk
    {
      Valid() && Journaled() && logged <= old(logged) + BitmapBlocks(sb)
    }

    ghost method EndOp()
      modifies `logged, `finished, `images
      ensures finished == old(finished) + [old(logged)] && logged == {} && images == old(images) + [disk[..]]
    {
      finished, logged, images := finished + [logged], {}, images + [disk[..]];
    }

    ghost predicate Valid()
      reads this, disk
    {
      SuperOk(sb, disk.Length)
    }

    ghost function V(): (v: Vol)
      requires Valid()
      reads this, disk
      ensures |v.inodes| == sb.ninodes && |v.data| == disk.Length
    {
      Abs(sb, disk[..])
    }

    // How many blocks are free.
    ghost function Room(): nat
      requires Valid()
      reads this, disk
    {
      |FreeBlocks(sb, V())|
    }

    // A change to a block, handed to log_write.
    method LogWrite(x: nat, b: Block)
      requires Valid() && x < disk.Length
      modifies disk, `logged
      ensures disk[..] == old(disk[..])[x := b] && logged == old(logged) + {x} && Journaled()
    {
      disk[x] := b;
      logged := logged + {x};
    }

    // ---------- blocks ----------

    // The scan of one bitmap block: the first clear bit, or the end.
    method FindBit(bp: Block, b: nat) returns (bi: nat)
      ensures bi <= BPB
      ensures forall c: nat | c < bi :: GetBit(bp, c)
      ensures bi < BPB && b + bi < sb.size ==> !GetBit(bp, bi)
    {
      bi := 0;
      while bi < BPB && b + bi < sb.size && GetBit(bp, bi)
        invariant bi <= BPB
        invariant forall c: nat | c < bi :: GetBit(bp, c)
      {
        bi := bi + 1;
      }
    }

    /** The lowest free block, zeroed and marked in use; a panic exactly if there is none. */
    method Balloc() returns (panicked: bool, b: nat)
      requires Valid() && forall c: nat | c < Meta(sb) :: c in V().used
      modifies disk, `logged
      ensures panicked <==> forall c: nat | c < sb.size :: c in old(V()).used
      ensures panicked <==> old(Room()) == 0
      ensures !panicked ==> Room() == old(Room()) - 1
      ensures panicked ==> V() == old(V()) && logged == old(logged)
      ensures !panicked ==> Meta(sb) <= b < sb.size && b !in old(V()).used && forall c: nat | c < b :: c in old(V()).used
      ensures !panicked ==> V() == Taken(old(V()), b) && logged == old(logged) + {BBlock(sb, b), b}
      ensures Journaled()
    {
      Regions(sb, disk.Length);
      var base := 0;
      while base < sb.size
        invariant base % BPB == 0 && base >= 0 && disk[..] == old(disk[..]) && logged == old(logged)
        invariant forall c: nat | c < base && c < sb.size :: c in old(V()).used
      {
        var bp := disk[BBlock(sb, base)];
        var bi := FindBit(bp, base);
        forall c: nat | base <= c < base + bi && c < sb.size
          ensures c in old(V()).used
        {
          assert BBlock(sb, c) == BBlock(sb, base) && c % BPB == c - base;
          assert Used(sb, disk[..], c);
        }
        if bi < BPB && base + bi < sb.size {
          panicked, b := false, base + bi;
          assert BBlock(sb, b) == BBlock(sb, base) && b % BPB == bi;
          assert !Used(sb, disk[..], b);
          assert b !in old(V()).used;
          assert Meta(sb) <= b;
          OneTaken(sb, V(), b);
          TakeBlock(b);
          return;
        }
        base := base + BPB;
      }
      assert V() == old(V());
      NoneFree(sb, old(V()));
      panicked, b := true, 0;
    }

    // Marking the bit, log_write, and bzero.
    method TakeBlock(b: nat)
      requires Valid() && Meta(sb) <= b < sb.size
      modifies disk, `logged
      ensures V() == Taken(old(V()), b) && logged == old(logged) + {BBlock(sb, b), b} && Journaled()
    {
      Regions(sb, disk.Length);
      AbsSet(sb, disk[..], b);
      var x := BBlock(sb, b);
      LogWrite(x, SetBit(disk[x], b % BPB));
      AbsData(sb, disk[..], b, ZeroBlock());
      LogWrite(b, ZeroBlock());
    }

    /** Clears the block's bit; the panic happens exactly if it is clear already. */
    method Bfree(b: nat) returns (panicked: bool)
      requires Valid() && b < sb.size
      modifies disk, `logged
      ensures panicked <==> b !in old(V()).used
      ensures V() == old(V()).(used := old(V()).used - {b})
      ensures logged <= old(logged) + {BBlock(sb, b)} && MapsLogged()
    {
      Regions(sb, disk.Length);
      AbsDrop(sb, disk[..], b);
      var x := BBlock(sb, b);
      panicked := !GetBit(disk[x], b % BPB);
      if !panicked {
        LogWrite(x, DropBit(disk[x], b % BPB));
      }
    }

    // ---------- inodes ----------

    /** The disk inode becomes the in-memory one; nothing else changes. */
    method Iupdate(ip: Inode)
      requires Valid() && ip.inum < sb.ninodes && DinodeOk(ip.Din())
      modifies disk, `logged
      ensures V() == With(old(V()), ip.inum, ip.Din()) && logged == old(logged) + {IBlock(sb, ip.inum)} && Journaled()
    {
      Regions(sb, disk.Length);
      AbsInode(sb, disk[..], ip.inum, ip.Din());
      var x := IBlock(sb, ip.inum);
      LogWrite(x, PutDinode(disk[x], ip.inum % IPB, Dinode(ip.typ, ip.major, ip.minor, ip.nlink, ip.size, ip.addrs)));
    }

    /** ilock's read of an inode that is not valid yet; the panic happens exactly if it is free. */
    method ReadInode(ip: Inode) returns (panicked: bool)
      requires Valid() && ip.inum < sb.ninodes
      modifies ip
      ensures panicked <==> V().inodes[ip.inum].typ == 0
      ensures !panicked ==> ip.Din() == V().inodes[ip.inum]
    {
      Regions(sb, disk.Length);
      var din := GetDinode(disk[IBlock(sb, ip.inum)], ip.inum % IPB);
      ip.typ := din.typ;
      panicked := ip.typ == 0;
      if !panicked {
        ip.major, ip.minor, ip.nlink, ip.size, ip.addrs := din.major, din.minor, din.nlink, din.size, din.addrs;
      }
    }

    // The volume with the in-memory inode in place, its size taken as sz.
    ghost function E(ip: Inode, sz: u32): (w: Vol)
      requires Valid() && ip.inum < sb.ninodes
      reads this, disk, ip
      ensures |w.inodes| == sb.ninodes && w.inodes[ip.inum].size == sz && |w.data| == disk.Length
    {
      With(V(), ip.inum, Sized(ip.Din(), sz))
    }
  
    // What bmap and its callers start from: file ip, taken as sz bytes long.
    ghost predicate Open(ip: Inode, sz: u32, own: map<nat, Slot>)
      reads this, disk, ip
    {
      Valid() && ip.inum < sb.ninodes && |ip.addrs| == NDIRECT + 1 && Sound(sb, E(ip, sz), own)
    }

    // Nothing at all has changed.
    twostate predicate Unchanged(ip: Inode)
      reads this, disk, ip
    {
      disk[..] == old(disk[..]) && ip.Din() == old(ip.Din()) && logged == old(logged)
    }

    // The first half of bmap: a direct block. bm is the bitmap block logged, if any.
    method BmapDirect(ip: Inode, bn: nat, ghost own: map<nat, Slot>, ghost sz: u32)
      returns (panicked: bool, addr: nat, ghost own2: map<nat, Slot>, ghost bm: set<nat>)
      requires Open(ip, sz, own) && bn < NDIRECT && BSIZE * bn <= sz
      modifies disk, `logged, ip`addrs
      ensures V().inodes == old(V().inodes)
      ensures panicked ==> forall c: nat | c < sb.size :: c in V().used
      ensures panicked <==> sz <= BSIZE * bn && old(Room()) == 0
      ensures !panicked ==> Room() == old(Room()) - (if sz <= BSIZE * bn then 1 else 0)
      ensures !panicked ==> BmapDone(sb, old(E(ip, sz)), own, E(ip, Grow(sz, bn)), own2, ip.inum, bn, addr)
      ensures sz > BSIZE * bn ==> !panicked && Unchanged(ip) && bm == {}
      ensures !panicked ==> logged <= old(logged) + bm + {addr} && |bm| <= 1 && bm <= BitmapBlocks(sb)
      ensures Journaled()
      ensures |ip.addrs| == NDIRECT + 1 && ip.addrs[NDIRECT] == old(ip.addrs[NDIRECT])
    {
      hide BmapDone, FreeBlocks, Abs;
      ghost var v := E(ip, sz);
      own2, bm := own, {};
      Regions(sb, disk.Length);
      assert SlotOk(sb, v, own, sb.ninodes, ip.inum, bn);
      addr := ip.addrs[bn];
      panicked := false;
      if addr == 0 {
        panicked, addr := Balloc();
        if !panicked {
          ip.addrs := ip.addrs[bn := addr];
          own2, bm := own[addr := Slot(ip.inum, bn)], {BBlock(sb, addr)};
          BmapDirectNew(sb, v, own, ip.inum, bn, addr);
          assert E(ip, Grow(sz, bn)) == GavePtr(v, ip.inum, bn, addr, BSIZE * bn + 1);
        }
      } else {
        BmapOld(sb, v, own, ip.inum, bn);
      }
    }

    // The indirect block, found or made.
    method BmapIndirect(ip: Inode, bn: nat, ghost own: map<nat, Slot>, ghost sz: u32)
      returns (panicked: bool, ind: nat, ghost own2: map<nat, Slot>, ghost bm: set<nat>)
      requires Open(ip, sz, own) && NDIRECT <= bn < MAXFILE && BSIZE * bn <= sz
      requires sz <= BSIZE * bn || ip.addrs[NDIRECT] != 0
      requires ip.addrs[NDIRECT] != 0 || (bn == NDIRECT && sz == BSIZE * NDIRECT)
      modifies disk, `logged, ip`addrs
      ensures V().inodes == old(V().inodes)
      ensures panicked ==> forall c: nat | c < sb.size :: c in V().used
      ensures panicked <==> old(ip.addrs[NDIRECT]) == 0 && old(Room()) == 0
      ensures !panicked ==> Room() == old(Room()) - (if old(ip.addrs[NDIRECT]) == 0 then 1 else 0)
      ensures !panicked ==> IndirectDone(sb, old(E(ip, sz)), own, E(ip, sz), own2, ip.inum)
      ensures old(ip.addrs[NDIRECT]) != 0 ==> !panicked && Unchanged(ip) && bm == {}
      ensures !panicked ==> logged <= old(logged) + bm + {ind} && |bm| <= 1 && bm <= BitmapBlocks(sb)
      ensures Journaled()
      ensures |ip.addrs| == NDIRECT + 1 && (!panicked ==> ind == ip.addrs[NDIRECT])
    {
      hide BmapDone, IndirectDone, FreeBlocks, Abs;
      ghost var v := E(ip, sz);
      own2, bm := own, {};
      Regions(sb, disk.Length);
      ind := ip.addrs[NDIRECT];
      panicked := false;
      if ind == 0 {
        panicked, ind := Balloc();
        if !panicked {
          ip.addrs := ip.addrs[NDIRECT := ind];
          own2, bm := own[ind := Slot(ip.inum, NDIRECT)], {BBlock(sb, ind)};
          IndirectNew(sb, v, own, ip.inum, ind);
          assert E(ip, sz) == GavePtr(v, ip.inum, NDIRECT, ind, BSIZE * NDIRECT);
        }
      } else {
        IndirectOld(sb, v, own, ip.inum);
      }
    }

    // Writing a block behind the bitmap changes that block of the volume only.
    method WriteData(x: nat, b: Block)
      requires Valid() && Meta(sb) <= x < disk.Length
      modifies disk, `logged
      ensures V() == old(V()).(data := old(V()).data[x := b]) && logged == old(logged) + {x} && Journaled()
      ensures Room() == old(Room())
    {
      hide FreeBlocks;
      AbsData(sb, disk[..], x, b);
      SameRoom(sb, V(), Abs(sb, disk[..][x := b]));
      LogWrite(x, b);
    }

    lemma DataAt(x: nat)
      requires Valid() && Meta(sb) <= x < disk.Length
      ensures V().data[x] == disk[x]
    {
    }

    // A block for an empty entry of the indirect block.
    method NewEntry(ip: Inode, bn: nat, ind: nat, ghost own: map<nat, Slot>, ghost sz: u32)
      returns (panicked: bool, addr: nat, ghost own2: map<nat, Slot>, ghost bm: set<nat>)
      requires Open(ip, sz, own) && NDIRECT <= bn < MAXFILE && sz == BSIZE * bn
      requires ind == ip.addrs[NDIRECT] && ind != 0 && Meta(sb) <= ind < disk.Length && Word(disk[ind], bn - NDIRECT) == 0
      modifies disk, `logged
      ensures V().inodes == old(V().inodes) && Journaled()
      ensures panicked ==> forall c: nat | c < sb.size :: c in V().used
      ensures panicked <==> old(Room()) == 0
      ensures !panicked ==> Room() == old(Room()) - 1
      ensures !panicked ==> BmapDone(sb, old(E(ip, sz)), own, E(ip, Grow(sz, bn)), own2, ip.inum, bn, addr)
      ensures !panicked ==> logged <= old(logged) + bm + {addr, ind} && |bm| <= 1 && bm <= BitmapBlocks(sb)
    {
      hide BmapDone, FreeBlocks, Abs;
      ghost var v := E(ip, sz);
      own2, bm := own, {};
      Regions(sb, disk.Length);
      var bp := disk[ind];
      DataAt(ind);
      panicked, addr := Balloc();
      if !panicked {
        own2, bm := own[addr := Slot(ip.inum, bn + 1)], {BBlock(sb, addr)};
        BmapEntryNew(sb, v, own, ip.inum, bn, addr);
        FreeBlock(sb, v, own, sb.ninodes, addr);
        WriteData(ind, PutWord(bp, bn - NDIRECT, addr));
        assert E(ip, Grow(sz, bn)) == GaveEntry(v, ip.inum, bn + 1, addr, BSIZE * bn + 1);
      }
    }

    // The entry in it, found or made.
    method BmapEntry(ip: Inode, bn: nat, ind: nat, ghost own: map<nat, Slot>, ghost sz: u32)
      returns (panicked: bool, addr: nat, ghost own2: map<nat, Slot>, ghost bm: set<nat>)
      requires Open(ip, sz, own) && NDIRECT <= bn < MAXFILE && BSIZE * bn <= sz
      requires ind == ip.addrs[NDIRECT] && ind != 0 && Meta(sb) <= ind < disk.Length
      modifies disk, `logged
      ensures V().inodes == old(V().inodes)
      ensures panicked ==> forall c: nat | c < sb.size :: c in V().used
      ensures panicked <==> sz <= BSIZE * bn && old(Room()) == 0
      ensures !panicked ==> Room() == old(Room()) - (if sz <= BSIZE * bn then 1 else 0)
      ensures !panicked ==> BmapDone(sb, old(E(ip, sz)), own, E(ip, Grow(sz, bn)), own2, ip.inum, bn, addr)
      ensures sz > BSIZE * bn ==> !panicked && Unchanged(ip) && bm == {}
      ensures !panicked ==> logged <= old(logged) + bm + {addr, ind} && |bm| <= 1 && bm <= BitmapBlocks(sb)
      ensures Journaled()
    {
      hide BmapDone;
      ghost var v := E(ip, sz);
      assert SlotOk(sb, v, own, sb.ninodes, ip.inum, bn + 1);
      own2, bm := own, {};
      addr := Word(disk[ind], bn - NDIRECT);
      panicked := false;
      if addr == 0 {
        panicked, addr, own2, bm := NewEntry(ip, bn, ind, own, sz);
      } else {
        BmapOld(sb, v, own, ip.inum, bn);
      }
    }
  
    // The second half of bmap: by way of the indirect block.
    method BmapFar(ip: Inode, bn: nat, ghost own: map<nat, Slot>, ghost sz: u32)
      returns (panicked: bool, addr: nat, ind: nat, ghost own2: map<nat, Slot>, ghost bm: set<nat>)
      requires Open(ip, sz, own) && NDIRECT <= bn < MAXFILE && BSIZE * bn <= sz
      modifies disk, `logged, ip`addrs
      ensures V().inodes == old(V().inodes)
      ensures panicked ==> forall c: nat | c < sb.size :: c in V().used
      ensures panicked <==> old(Room()) < Takes(old(ip.addrs), sz, bn)
      ensures !panicked ==> Room() == old(Room()) - Takes(old(ip.addrs), sz, bn)
      ensures !panicked ==> BmapDone(sb, old(E(ip, sz)), own, E(ip, Grow(sz, bn)), own2, ip.inum, bn, addr)
      ensures sz > BSIZE * bn ==> !panicked && Unchanged(ip)
      ensures |ip.addrs| == NDIRECT + 1 && (!panicked ==> ind == ip.addrs[NDIRECT] != 0)
      ensures !panicked ==> logged <= old(logged) + bm + {addr, ind} && bm <= BitmapBlocks(sb)
      ensures Journaled()
      ensures !panicked ==> |bm| <= (if sz > BSIZE * bn then 0 else 1) + Made(old(ip.addrs), ip.addrs)
      ensures !panicked && old(ip.addrs[NDIRECT]) != 0 ==> ip.addrs[NDIRECT] == old(ip.addrs[NDIRECT])
    {
      hide BmapDone, IndirectDone, Sound, FreeBlocks, BitmapBlocks, Abs;
      ghost var v := E(ip, sz);
      IndirectThere(sb, v, own, ip.inum, bn);
      ghost var own1, bm1;
      panicked, ind, own1, bm1 := BmapIndirect(ip, bn, own, sz);
      addr, own2, bm := 0, own1, bm1;
      if !panicked {
        IndirectAt(sb, v, own, E(ip, sz), own1, ip.inum);
        ghost var w, bm2 := E(ip, sz), bm;
        panicked, addr, own2, bm2 := BmapEntry(ip, bn, ind, own1, sz);
        bm := bm1 + bm2;
        if !panicked {
          BmapThrough(sb, v, own, w, own1, E(ip, Grow(sz, bn)), own2, ip.inum, bn, addr);
        }
      }
    }

    /** The block of file block bn, made if it is just beyond the end: then it is zero, and the
        indirect block and the bitmap are logged with it. The bytes of all files stay, and so does
        everybody's ownership; it panics exactly if fewer blocks are free than it takes. */
    method Bmap(ip: Inode, bn: nat, ghost own: map<nat, Slot>, ghost sz: u32)
      returns (panicked: bool, addr: nat, ghost own2: map<nat, Slot>, ghost bm: set<nat>)
      requires Open(ip, sz, own) && bn < MAXFILE && BSIZE * bn <= sz
      modifies disk, `logged, ip`addrs
      ensures V().inodes == old(V().inodes)
      ensures panicked ==> forall c: nat | c < sb.size :: c in V().used
      ensures panicked <==> old(Room()) < Takes(old(ip.addrs), sz, bn)
      ensures !panicked ==> Room() == old(Room()) - Takes(old(ip.addrs), sz, bn)
      ensures !panicked ==> BmapDone(sb, old(E(ip, sz)), own, E(ip, Grow(sz, bn)), own2, ip.inum, bn, addr)
      ensures sz > BSIZE * bn ==> !panicked && Unchanged(ip)
      ensures |ip.addrs| == NDIRECT + 1
      ensures !panicked ==> logged <= old(logged) + bm + {addr} + Inds(ip.addrs)
      ensures !panicked ==> bm <= BitmapBlocks(sb)
      ensures Journaled()
      ensures !panicked ==> |bm| <= (if sz > BSIZE * bn then 0 else 1) + Made(old(ip.addrs), ip.addrs)
      ensures !panicked && (old(ip.addrs[NDIRECT]) != 0 || bn < NDIRECT) ==> ip.addrs[NDIRECT] == old(ip.addrs[NDIRECT])
    {
      hide BmapDone, Sound, FreeBlocks, BitmapBlocks;
      if bn < NDIRECT {
        panicked, addr, own2, bm := BmapDirect(ip, bn, own, sz);
      } else {
        var ind;
        panicked, addr, ind, own2, bm := BmapFar(ip, bn, own, sz);
      }
    }
  }

  // The indirect block, if there is one.
  function Inds(addrs: seq<u32>): set<nat> {
    if |addrs| == NDIRECT + 1 && addrs[NDIRECT] != 0 then {addrs[NDIRECT]} else {}
  }

  // 1 if the indirect block was made.
  function Made(before: seq<u32>, after: seq<u32>): nat {
    if |before| == |after| == NDIRECT + 1 && before[NDIRECT] == 0 && after[NDIRECT] != 0 then 1 else 0
  }

  lemma IndirectThere(sb: Super, v: Vol, own: map<nat, Slot>, i: nat, bn: nat)
    requires Sound(sb, v, own) && i < sb.ninodes && NDIRECT <= bn < MAXFILE && BSIZE * bn <= v.inodes[i].size
    ensures v.inodes[i].addrs[NDIRECT] == 0 ==> bn == NDIRECT && v.inodes[i].size == BSIZE * NDIRECT
  {
    assert SlotOk(sb, v, own, sb.ninodes, i, NDIRECT);
  }

  lemma IndirectAt(sb: Super, v: Vol, own: map<nat, Slot>, w: Vol, own2: map<nat, Slot>, i: nat)
    requires IndirectDone(sb, v, own, w, own2, i)
    ensures Sound(sb, w, own2) && Meta(sb) <= w.inodes[i].addrs[NDIRECT] < |w.data|
  {
    assert SlotOk(sb, w, own2, sb.ninodes, i, NDIRECT);
    assert OwnOk(sb, w, own2, w.inodes[i].addrs[NDIRECT]);
  }
}
