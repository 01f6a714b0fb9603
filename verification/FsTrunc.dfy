/** Truncating a file: all its blocks are freed, each once (itrunc in kern/fs.c). */
module FsTrunc {
  import opened Bytes
  import opened Layout
  import opened Volume
  import opened Fs

  // Pointer k <= 12 of inode i gone, and its block b free.
  ghost function Dropped(v: Vol, i: nat, k: nat, b: nat): Vol
    requires i < |v.inodes| && DinodeOk(v.inodes[i]) && k <= NDIRECT
  {
    Vol(v.used - {b}, v.inodes[i := v.inodes[i].(addrs := v.inodes[i].addrs[k := 0])], v.data)
  }

  // The same for an entry of the indirect block.
  ghost function DroppedEntry(v: Vol, i: nat, k: nat, b: nat): Vol
    requires i < |v.inodes| && DinodeOk(v.inodes[i]) && NDIRECT < k < SLOTS && v.inodes[i].addrs[NDIRECT] < |v.data|
  {
    var ind := v.inodes[i].addrs[NDIRECT];
    Vol(v.used - {b}, v.inodes, v.data[ind := PutWord(v.data[ind], k - NDIRECT - 1, 0)])
  }

  // Pointer k of inode i names b; the indirect block goes last.
  ghost predicate CanDrop(sb: Super, v: Vol, own: map<nat, Slot>, i: nat, k: nat, b: nat) {
    match v
    case Vol(used, inodes, data) =>
      && SoundBut(sb, v, own, i) && i < sb.ninodes && k < SLOTS && b != 0 && Ptr(v, i, k) == b
      && (k == NDIRECT ==> forall l: nat | NDIRECT < l < SLOTS :: Ptr(v, i, l) == 0)
  }

  lemma DropIsOwn(sb: Super, v: Vol, own: map<nat, Slot>, i: nat, k: nat, b: nat)
    requires CanDrop(sb, v, own, i, k, b)
    ensures b in own && own[b] == Slot(i, k) && Meta(sb) <= b < sb.size && b in v.used
    ensures k > NDIRECT ==> v.inodes[i].addrs[NDIRECT] != 0 && v.inodes[i].addrs[NDIRECT] < |v.data|
  {
    assert SlotOk(sb, v, own, i, i, k);
    assert OwnOk(sb, v, own, b);
  }

  lemma DroppedPtr(sb: Super, v: Vol, own: map<nat, Slot>, i: nat, k: nat, b: nat, j: nat, l: nat)
    requires CanDrop(sb, v, own, i, k, b) && k <= NDIRECT && j < sb.ninodes && l < SLOTS
    ensures Ptr(Dropped(v, i, k, b), j, l) == if j == i && l == k then 0 else Ptr(v, j, l)
  {
  }

  lemma DroppedSound(sb: Super, v: Vol, own: map<nat, Slot>, i: nat, k: nat, b: nat)
    requires CanDrop(sb, v, own, i, k, b) && k <= NDIRECT
    ensures SoundBut(sb, Dropped(v, i, k, b), own - {b}, i)
  {
    DropIsOwn(sb, v, own, i, k, b);
    var w, own2 := Dropped(v, i, k, b), own - {b};
    forall j: nat, l: nat | j < sb.ninodes && l < SLOTS
      ensures SlotOk(sb, w, own2, i, j, l)
    {
      DroppedPtr(sb, v, own, i, k, b, j, l);
      assert SlotOk(sb, v, own, i, j, l);
    }
    forall c: nat | c in own2
      ensures OwnOk(sb, w, own2, c)
    {
      assert OwnOk(sb, v, own, c);
      DroppedPtr(sb, v, own, i, k, b, own[c].i, own[c].k);
    }
  }

  lemma DroppedEntryPtr(sb: Super, v: Vol, own: map<nat, Slot>, i: nat, k: nat, b: nat, j: nat, l: nat)
    requires CanDrop(sb, v, own, i, k, b) && k > NDIRECT && j < sb.ninodes && l < SLOTS
    requires v.inodes[i].addrs[NDIRECT] != 0 && v.inodes[i].addrs[NDIRECT] < |v.data|
    ensures Ptr(DroppedEntry(v, i, k, b), j, l) == if j == i && l == k then 0 else Ptr(v, j, l)
  {
    assert SlotOk(sb, v, own, i, j, NDIRECT) && SlotOk(sb, v, own, i, i, NDIRECT);
  }

  lemma DroppedEntrySound(sb: Super, v: Vol, own: map<nat, Slot>, i: nat, k: nat, b: nat)
    requires CanDrop(sb, v, own, i, k, b) && k > NDIRECT
    requires v.inodes[i].addrs[NDIRECT] != 0 && v.inodes[i].addrs[NDIRECT] < |v.data|
    ensures SoundBut(sb, DroppedEntry(v, i, k, b), own - {b}, i)
  {
    DropIsOwn(sb, v, own, i, k, b);
    var w, own2 := DroppedEntry(v, i, k, b), own - {b};
    forall j: nat, l: nat | j < sb.ninodes && l < SLOTS
      ensures SlotOk(sb, w, own2, i, j, l)
    {
      DroppedEntryPtr(sb, v, own, i, k, b, j, l);
      assert SlotOk(sb, v, own, i, j, l);
    }
    forall c: nat | c in own2
      ensures OwnOk(sb, w, own2, c)
    {
      assert OwnOk(sb, v, own, c);
      DroppedEntryPtr(sb, v, own, i, k, b, own[c].i, own[c].k);
    }
  }

  // The contents of a block without owner do not matter.
  lemma JunkSound(sb: Super, v: Vol, own: map<nat, Slot>, i: nat, x: nat, b: Block)
    requires SoundBut(sb, v, own, i) && x < |v.data| && x !in own
    ensures SoundBut(sb, v.(data := v.data[x := b]), own, i)
  {
    var w := v.(data := v.data[x := b]);
    forall j: nat, l: nat | j < sb.ninodes && l < SLOTS
      ensures Ptr(w, j, l) == Ptr(v, j, l) && SlotOk(sb, w, own, i, j, l)
    {
      assert SlotOk(sb, v, own, i, j, NDIRECT) && SlotOk(sb, v, own, i, j, l);
    }
    forall c: nat | c in own
      ensures OwnOk(sb, w, own, c)
    {
      assert OwnOk(sb, v, own, c);
    }
  }

  // What an inode takes out of the balance, and what is left of the owners without it.
  ghost function WithoutFile(own: map<nat, Slot>, i: nat): map<nat, Slot> {
    map b | b in own && own[b].i != i :: own[b]
  }

  ghost function BlocksOf(own: map<nat, Slot>, i: nat): set<nat> {
    set b | b in own && own[b].i == i
  }

  ghost predicate NoPtrs(v: Vol, i: nat) {
    i < |v.inodes| && DinodeOk(v.inodes[i]) && forall k: nat | k < SLOTS :: Ptr(v, i, k) == 0
  }

  // Truncation under way: of the owners, blocks of file i only have been taken out.
  ghost predicate Shrinking(sb: Super, v0: Vol, own0: map<nat, Slot>, v: Vol, own: map<nat, Slot>, i: nat) {
    match v
    case Vol(used, inodes, data) =>
      && SoundBut(sb, v, own, i) && i < sb.ninodes && Shaped(sb, v0)
      && (forall j | 0 <= j < sb.ninodes && j != i :: inodes[j] == v0.inodes[j])
      && (forall b | b in own :: b in own0 && own[b] == own0[b])
      && (forall b | b in own0 && own0[b].i != i :: b in own)
  }

  // With all pointers zero and size zero the file is sound again, and exactly its blocks are free.
  lemma ShrunkSound(sb: Super, v0: Vol, own0: map<nat, Slot>, v: Vol, own: map<nat, Slot>, i: nat)
    requires Sound(sb, v0, own0) && Shrinking(sb, v0, own0, v, own, i) && NoPtrs(v, i) && v.inodes[i].size == 0
    ensures Sound(sb, v, own) && own == WithoutFile(own0, i)
    ensures forall b: nat | b < sb.size :: b in v.used <==> b in v0.used && b !in BlocksOf(own0, i)
  {
    forall j: nat, l: nat | j < sb.ninodes && l < SLOTS
      ensures SlotOk(sb, v, own, sb.ninodes, j, l)
    {
      assert SlotOk(sb, v, own, i, j, l);
    }
    forall c: nat | c in own
      ensures OwnOk(sb, v, own, c) && own[c].i != i
    {
      assert OwnOk(sb, v, own, c);
    }
    forall b: nat | b in own0
      ensures Meta(sb) <= b < sb.size
    {
      assert OwnOk(sb, v0, own0, b);
    }
  }

  lemma ShrinkMore(sb: Super, v0: Vol, own0: map<nat, Slot>, v: Vol, own: map<nat, Slot>, i: nat, k: nat, b: nat)
    requires Shrinking(sb, v0, own0, v, own, i) && CanDrop(sb, v, own, i, k, b) && k <= NDIRECT
    ensures Shrinking(sb, v0, own0, Dropped(v, i, k, b), own - {b}, i)
  {
    DropIsOwn(sb, v, own, i, k, b);
    DroppedSound(sb, v, own, i, k, b);
  }

  lemma ShrinkEntry(sb: Super, v0: Vol, own0: map<nat, Slot>, v: Vol, own: map<nat, Slot>, i: nat, k: nat, b: nat)
    requires Shrinking(sb, v0, own0, v, own, i) && CanDrop(sb, v, own, i, k, b) && k > NDIRECT
    ensures v.inodes[i].addrs[NDIRECT] != 0 && v.inodes[i].addrs[NDIRECT] < |v.data|
    ensures Shrinking(sb, v0, own0, DroppedEntry(v, i, k, b), own - {b}, i)
  {
    DropIsOwn(sb, v, own, i, k, b);
    DroppedEntrySound(sb, v, own, i, k, b);
  }

  lemma ShrinkFirst(sb: Super, v: Vol, own: map<nat, Slot>, i: nat)
    requires Sound(sb, v, own) && i < sb.ninodes
    ensures Shrinking(sb, v, own, v, own, i)
  {
    forall j: nat, l: nat | j < sb.ninodes && l < SLOTS
      ensures SlotOk(sb, v, own, i, j, l)
    {
      assert SlotOk(sb, v, own, sb.ninodes, j, l);
    }
    forall c: nat | c in own
      ensures OwnOk(sb, v, own, c)
    {
      assert OwnOk(sb, v, own, c);
    }
  }

  // The size of the file under truncation does not matter yet.
  lemma ShrinkSized(sb: Super, v0: Vol, own0: map<nat, Slot>, v: Vol, own: map<nat, Slot>, i: nat, n: u32)
    requires Shrinking(sb, v0, own0, v, own, i)
    ensures Shrinking(sb, v0, own0, With(v, i, Sized(v.inodes[i], n)), own, i)
  {
    var w := With(v, i, Sized(v.inodes[i], n));
    forall j: nat, l: nat | j < sb.ninodes && l < SLOTS
      ensures Ptr(w, j, l) == Ptr(v, j, l) && SlotOk(sb, w, own, i, j, l)
    {
      assert SlotOk(sb, v, own, i, j, l);
    }
    forall c: nat | c in own
      ensures OwnOk(sb, w, own, c)
    {
      assert OwnOk(sb, v, own, c);
    }
  }

  // The volume during truncation of ip, its indirect block x counted as holding blk.
  ghost function Half(fs: FileSystem, ip: Inode, x: nat, blk: Block): Vol
    requires fs.Valid() && ip.inum < fs.sb.ninodes && x < |fs.V().data|
    reads fs, fs.disk, ip
  {
    var v := fs.E(ip, ip.size);
    v.(data := v.data[x := blk])
  }

  // One round of the loop over the direct blocks.
  method FreeDirect(fs: FileSystem, ip: Inode, i: nat, ghost v0: Vol, ghost own0: map<nat, Slot>, ghost own: map<nat, Slot>)
    returns (panicked: bool, ghost own2: map<nat, Slot>)
    requires fs.Valid() && ip.inum < fs.sb.ninodes && DinodeOk(ip.Din()) && i < NDIRECT
    requires Shrinking(fs.sb, v0, own0, fs.E(ip, ip.size), own, ip.inum)
    modifies fs.disk, fs`logged, ip`addrs
    ensures !panicked && ip.addrs == old(ip.addrs)[i := 0] && fs.MapsLogged()
    ensures fs.V().data == old(fs.V().data) && fs.V().inodes == old(fs.V().inodes)
    ensures Shrinking(fs.sb, v0, own0, fs.E(ip, ip.size), own2, ip.inum)
  {
    panicked, own2 := false, own;
    var b := ip.addrs[i];
    if b != 0 {
      ghost var v := fs.E(ip, ip.size);
      assert CanDrop(fs.sb, v, own, ip.inum, i, b);
      DropIsOwn(fs.sb, v, own, ip.inum, i, b);
      ShrinkMore(fs.sb, v0, own0, v, own, ip.inum, i, b);
      panicked := fs.Bfree(b);
      ip.addrs := ip.addrs[i := 0];
      own2 := own - {b};
      assert fs.E(ip, ip.size) == Dropped(v, ip.inum, i, b);
    }
  }

  // One round of the loop over the indirect block's entries; blk has lost those before j.
  method FreeEntry(fs: FileSystem, ip: Inode, bp: Block, j: nat, ghost blk: Block,
                   ghost v0: Vol, ghost own0: map<nat, Slot>, ghost own: map<nat, Slot>)
    returns (panicked: bool, ghost own2: map<nat, Slot>, ghost blk2: Block)
    requires fs.Valid() && ip.inum < fs.sb.ninodes && DinodeOk(ip.Din()) && j < NINDIRECT
    requires ip.addrs[NDIRECT] != 0 && ip.addrs[NDIRECT] < |fs.V().data|
    requires Shrinking(fs.sb, v0, own0, Half(fs, ip, ip.addrs[NDIRECT], blk), own, ip.inum)
    requires forall l: nat | l < NINDIRECT :: Word(blk, l) == if l < j then 0 else Word(bp, l)
    modifies fs.disk, fs`logged
    ensures !panicked && fs.V().data == old(fs.V().data) && fs.V().inodes == old(fs.V().inodes) && fs.MapsLogged()
    ensures Shrinking(fs.sb, v0, own0, Half(fs, ip, ip.addrs[NDIRECT], blk2), own2, ip.inum)
    ensures forall l: nat | l < NINDIRECT :: Word(blk2, l) == if l < j + 1 then 0 else Word(bp, l)
  {
    panicked, own2, blk2 := false, own, blk;
    var b := Word(bp, j);
    if b != 0 {
      ghost var x := ip.addrs[NDIRECT];
      ghost var v := Half(fs, ip, x, blk);
      ghost var k := j + NDIRECT + 1;
      assert Ptr(v, ip.inum, k) == b;
      assert CanDrop(fs.sb, v, own, ip.inum, k, b);
      DropIsOwn(fs.sb, v, own, ip.inum, k, b);
      ShrinkEntry(fs.sb, v0, own0, v, own, ip.inum, k, b);
      panicked := fs.Bfree(b);
      own2, blk2 := own - {b}, PutWord(blk, j, 0);
      assert Half(fs, ip, x, blk2) == DroppedEntry(v, ip.inum, k, b);
    }
  }

  // The second half of itrunc: the entries, then the indirect block.
  method FreeIndirect(fs: FileSystem, ip: Inode, ghost v0: Vol, ghost own0: map<nat, Slot>, ghost own: map<nat, Slot>)
    returns (panicked: bool, ghost own2: map<nat, Slot>)
    requires fs.Valid() && ip.inum < fs.sb.ninodes && DinodeOk(ip.Din()) && ip.addrs[NDIRECT] != 0
    requires Shrinking(fs.sb, v0, own0, fs.E(ip, ip.size), own, ip.inum)
    modifies fs.disk, fs`logged, ip`addrs
    ensures !panicked && ip.addrs == old(ip.addrs)[NDIRECT := 0] && fs.MapsLogged()
    ensures fs.V().data == old(fs.V().data) && fs.V().inodes == old(fs.V().inodes)
    ensures Shrinking(fs.sb, v0, own0, fs.E(ip, ip.size), own2, ip.inum)
  {
    ghost var v := fs.E(ip, ip.size);
    var ind := ip.addrs[NDIRECT];
    IndirectHeld(fs.sb, v, own, ip.inum);
    var bp := fs.disk[ind];
    ghost var blk := bp;
    own2, panicked := own, false;
    assert v.data[ind := bp] == v.data;
    assert Half(fs, ip, ind, blk) == v;
    var j := 0;
    while j < NINDIRECT
      invariant j <= NINDIRECT && !panicked && ip.addrs == old(ip.addrs) && fs.MapsLogged()
      invariant fs.V().data == old(fs.V().data) && fs.V().inodes == old(fs.V().inodes)
      invariant Shrinking(fs.sb, v0, own0, Half(fs, ip, ind, blk), own2, ip.inum)
      invariant forall l: nat | l < NINDIRECT :: Word(blk, l) == if l < j then 0 else Word(bp, l)
    {
      panicked, own2, blk := FreeEntry(fs, ip, bp, j, blk, v0, own0, own2);
      j := j + 1;
    }
    panicked, own2 := FreeIndirectBlock(fs, ip, blk, v0, own0, own2);
  }

  lemma IndirectHeld(sb: Super, v: Vol, own: map<nat, Slot>, i: nat)
    requires SoundBut(sb, v, own, i) && i < sb.ninodes && v.inodes[i].addrs[NDIRECT] != 0
    ensures Meta(sb) <= v.inodes[i].addrs[NDIRECT] < |v.data|
  {
    assert SlotOk(sb, v, own, i, i, NDIRECT);
    assert OwnOk(sb, v, own, v.inodes[i].addrs[NDIRECT]);
  }

  // bfree of the indirect block, all its entries being gone.
  method FreeIndirectBlock(fs: FileSystem, ip: Inode, ghost blk: Block, ghost v0: Vol, ghost own0: map<nat, Slot>, ghost own: map<nat, Slot>)
    returns (panicked: bool, ghost own2: map<nat, Slot>)
    requires fs.Valid() && ip.inum < fs.sb.ninodes && DinodeOk(ip.Din())
    requires ip.addrs[NDIRECT] != 0 && ip.addrs[NDIRECT] < |fs.V().data|
    requires Shrinking(fs.sb, v0, own0, Half(fs, ip, ip.addrs[NDIRECT], blk), own, ip.inum)
    requires forall l: nat | l < NINDIRECT :: Word(blk, l) == 0
    modifies fs.disk, fs`logged, ip`addrs
    ensures !panicked && ip.addrs == old(ip.addrs)[NDIRECT := 0] && fs.MapsLogged()
    ensures fs.V().data == old(fs.V().data) && fs.V().inodes == old(fs.V().inodes)
    ensures Shrinking(fs.sb, v0, own0, fs.E(ip, ip.size), own2, ip.inum)
  {
    var ind := ip.addrs[NDIRECT];
    ghost var data := fs.V().data;
    ghost var h := Half(fs, ip, ind, blk);
    assert CanDrop(fs.sb, h, own, ip.inum, NDIRECT, ind);
    DropIsOwn(fs.sb, h, own, ip.inum, NDIRECT, ind);
    ShrinkMore(fs.sb, v0, own0, h, own, ip.inum, NDIRECT, ind);
    panicked := fs.Bfree(ind);
    ip.addrs := ip.addrs[NDIRECT := 0];
    own2 := own - {ind};
    ghost var g := Dropped(h, ip.inum, NDIRECT, ind);
    JunkSound(fs.sb, g, own2, ip.inum, ind, data[ind]);
    assert data[ind := blk][ind := data[ind]] == data;
    assert fs.E(ip, ip.size) == g.(data := g.data[ind := data[ind]]);
  }

  // The loop over the direct blocks.
  method FreeDirects(fs: FileSystem, ip: Inode, ghost v0: Vol, ghost own0: map<nat, Slot>)
    returns (panicked: bool, ghost own: map<nat, Slot>)
    requires fs.Valid() && ip.inum < fs.sb.ninodes && DinodeOk(ip.Din())
    requires Shrinking(fs.sb, v0, own0, fs.E(ip, ip.size), own0, ip.inum)
    modifies fs.disk, fs`logged, ip`addrs
    ensures !panicked && |ip.addrs| == NDIRECT + 1 && forall k | 0 <= k < NDIRECT :: ip.addrs[k] == 0
    ensures fs.MapsLogged()
    ensures fs.V().data == old(fs.V().data) && fs.V().inodes == old(fs.V().inodes)
    ensures Shrinking(fs.sb, v0, own0, fs.E(ip, ip.size), own, ip.inum)
  {
    panicked, own := false, own0;
    var i := 0;
    while i < NDIRECT
      invariant i <= NDIRECT && !panicked && |ip.addrs| == NDIRECT + 1 && forall k | 0 <= k < i :: ip.addrs[k] == 0
      invariant fs.MapsLogged()
      invariant fs.V().data == old(fs.V().data) && fs.V().inodes == old(fs.V().inodes)
      invariant Shrinking(fs.sb, v0, own0, fs.E(ip, ip.size), own, ip.inum)
    {
      panicked, own := FreeDirect(fs, ip, i, v0, own0, own);
      i := i + 1;
    }
  }

  // Size 0, and iupdate.
  method FinishTrunc(fs: FileSystem, ip: Inode, ghost v0: Vol, ghost own0: map<nat, Slot>, ghost own: map<nat, Slot>)
    requires fs.Valid() && ip.inum < fs.sb.ninodes && Sound(fs.sb, v0, own0)
    requires |ip.addrs| == NDIRECT + 1 && forall k | 0 <= k < NDIRECT + 1 :: ip.addrs[k] == 0
    requires Shrinking(fs.sb, v0, own0, fs.E(ip, ip.size), own, ip.inum)
    modifies fs.disk, fs`logged, ip`size
    ensures ip.size == 0 && fs.V() == With(old(fs.V()), ip.inum, ip.Din())
    ensures fs.Journaled() && fs.logged <= old(fs.logged) + {IBlock(fs.sb, ip.inum)}
    ensures Sound(fs.sb, fs.V(), own) && own == WithoutFile(own0, ip.inum)
    ensures forall b: nat | b < fs.sb.size :: b in fs.V().used <==> b in v0.used && b !in BlocksOf(own0, ip.inum)
  {
    ghost var e := fs.E(ip, 0);
    ShrinkSized(fs.sb, v0, own0, fs.E(ip, ip.size), own, ip.inum, 0);
    assert With(fs.E(ip, ip.size), ip.inum, Sized(fs.E(ip, ip.size).inodes[ip.inum], 0)) == e;
    ip.size := 0;
    fs.Iupdate(ip);
    assert fs.V() == e;
    ShrunkSound(fs.sb, v0, own0, e, own, ip.inum);
  }

  /** Truncates the file: bfree's panic never happens, so each block of the file is freed exactly
      once, and no other; the file is empty in memory and on the device; the rest of the volume, all
      data included, stays. Only the bitmap and the inode's block are logged. */
  method Itrunc(fs: FileSystem, ip: Inode, ghost own: map<nat, Slot>) returns (panicked: bool)
    requires fs.Open(ip, ip.size, own)
    modifies fs.disk, fs`logged, ip`addrs, ip`size
    ensures !panicked && ip.size == 0 && ip.addrs == seq(NDIRECT + 1, _ => 0)
    ensures fs.Valid() && Sound(fs.sb, fs.V(), WithoutFile(own, ip.inum))
    ensures fs.V().used == old(fs.V().used) - BlocksOf(own, ip.inum)
    ensures fs.V().inodes == old(fs.V().inodes)[ip.inum := ip.Din()] && fs.V().data == old(fs.V().data)
    ensures fs.Journaled() && fs.logged <= old(fs.logged) + BitmapBlocks(fs.sb) + {IBlock(fs.sb, ip.inum)}
  {
    ghost var v0 := fs.E(ip, ip.size);
    ShrinkFirst(fs.sb, v0, own, ip.inum);
    ghost var own2;
    panicked, own2 := FreeDirects(fs, ip, v0, own);
    if ip.addrs[NDIRECT] != 0 {
      panicked, own2 := FreeIndirect(fs, ip, v0, own, own2);
    }
    FinishTrunc(fs, ip, v0, own, own2);
    UsedShrunk(fs.sb, v0, own, fs.V(), own2, ip.inum);
    assert ip.addrs == seq(NDIRECT + 1, _ => 0);
  }

  lemma UsedShrunk(sb: Super, v0: Vol, own0: map<nat, Slot>, v: Vol, own: map<nat, Slot>, i: nat)
    requires Sound(sb, v0, own0) && Sound(sb, v, own) && own == WithoutFile(own0, i)
    requires forall b: nat | b < sb.size :: b in v.used <==> b in v0.used && b !in BlocksOf(own0, i)
    requires forall b | b in v.used || b in v0.used :: b < sb.size
    ensures v.used == v0.used - BlocksOf(own0, i)
  {
  }
}
