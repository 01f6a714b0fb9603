/** Who owns which block, and what the bytes of a file are (kern/fs.c). */
module Volume {
  import opened Bytes
  import opened Layout

  // Pointer k of inode i: 0..11 direct blocks, 12 the indirect block, 13.. its entries.
  datatype Slot = Slot(i: nat, k: nat)

  const SLOTS := 141

  ghost predicate Shaped(sb: Super, v: Vol) {
    && SuperOk(sb, |v.data|) && |v.inodes| == sb.ninodes
    && forall i | 0 <= i < |v.inodes| :: DinodeOk(v.inodes[i])
  }

  ghost function Ptr(v: Vol, i: nat, k: nat): u32
    requires i < |v.inodes| && DinodeOk(v.inodes[i]) && k < SLOTS
  {
    var a := v.inodes[i].addrs;
    if k <= NDIRECT then a[k]
    else if a[NDIRECT] != 0 && a[NDIRECT] < |v.data| then Word(v.data[a[NDIRECT]], k - NDIRECT - 1)
    else 0
  }

  // The slot of file block bn, and back.
  function SlotOf(bn: nat): nat { if bn < NDIRECT then bn else bn + 1 }

  function BlockOf(k: nat): nat
    requires k != NDIRECT
  {
    if k < NDIRECT then k else k - 1
  }

  // A file of that size has a block in this slot.
  predicate Need(size: nat, k: nat)
    requires k != NDIRECT
  {
    size > BSIZE * BlockOf(k)
  }

  // A non-zero pointer is its block's owner; and except for the inode out, a file has exactly the
  // blocks its size asks for (no holes, none beyond), and an indirect block once it has passed the
  // direct ones.
  ghost predicate SlotOk(sb: Super, v: Vol, own: map<nat, Slot>, out: nat, i: nat, k: nat)
    requires i < |v.inodes| && DinodeOk(v.inodes[i]) && k < SLOTS
  {
    var b, size := Ptr(v, i, k), v.inodes[i].size;
    && (b != 0 ==> b in own && own[b] == Slot(i, k))
    && (i != out ==>
          if k == NDIRECT then (size > BSIZE * NDIRECT ==> b != 0) && (b != 0 ==> size >= BSIZE * NDIRECT)
          else b != 0 <==> Need(size, k))
  }

  ghost predicate OwnOk(sb: Super, v: Vol, own: map<nat, Slot>, b: nat)
    requires Shaped(sb, v) && b in own
  {
    Meta(sb) <= b < sb.size && own[b].i < sb.ninodes && own[b].k < SLOTS && Ptr(v, own[b].i, own[b].k) == b
  }

  // A bitmap bit is set exactly if its block is metadata or has an owner; and owners are unique.
  ghost predicate SoundBut(sb: Super, v: Vol, own: map<nat, Slot>, out: nat) {
    match v
    case Vol(used, inodes, data) =>
      && Shaped(sb, v)
      && (forall i: nat, k: nat {:trigger SlotOk(sb, v, own, out, i, k)} | i < sb.ninodes && k < SLOTS :: SlotOk(sb, v, own, out, i, k))
      && (forall b: nat {:trigger OwnOk(sb, v, own, b)} | b in own :: OwnOk(sb, v, own, b))
      && (forall b: nat | b < sb.size :: b in used <==> b < Meta(sb) || b in own)
      && (forall i: nat | i < sb.ninodes && i != out :: inodes[i].size <= MAXFILE * BSIZE)
  }

  ghost predicate Sound(sb: Super, v: Vol, own: map<nat, Slot>) {
    SoundBut(sb, v, own, sb.ninodes)
  }

  // Byte o of file i.
  ghost function ByteAt(v: Vol, i: nat, o: nat): byte
    requires i < |v.inodes| && DinodeOk(v.inodes[i]) && o / BSIZE < MAXFILE
  {
    var b := Ptr(v, i, SlotOf(o / BSIZE));
    if b < |v.data| then v.data[b][o % BSIZE] else 0
  }

  // The in-memory copy of an inode takes the place of the one on the device; during a write its
  // size counts as what has been written so far.
  ghost function With(v: Vol, i: nat, din: Dinode): Vol
    requires i < |v.inodes|
  {
    v.(inodes := v.inodes[i := din])
  }

  function Sized(din: Dinode, n: u32): Dinode { din.(size := n) }

  // ---------- allocation ----------

  // Block b given to the direct or indirect pointer k of inode i.
  ghost function GavePtr(v: Vol, i: nat, k: nat, b: nat, size: u32): Vol
    requires i < |v.inodes| && DinodeOk(v.inodes[i]) && k <= NDIRECT && b < |v.data| && b < 0x1_0000_0000
  {
    var din := v.inodes[i];
    Vol(v.used + {b}, v.inodes[i := Sized(din.(addrs := din.addrs[k := b]), size)], v.data[b := ZeroBlock()])
  }

  // Block b given to entry k of inode i's indirect block.
  ghost function GaveEntry(v: Vol, i: nat, k: nat, b: nat, size: u32): Vol
    requires i < |v.inodes| && DinodeOk(v.inodes[i]) && NDIRECT < k < SLOTS && b < |v.data| && b < 0x1_0000_0000
    requires v.inodes[i].addrs[NDIRECT] < |v.data|
  {
    var din := v.inodes[i];
    var ind := din.addrs[NDIRECT];
    var data := v.data[b := ZeroBlock()];
    Vol(v.used + {b}, v.inodes[i := Sized(din, size)], data[ind := PutWord(data[ind], k - NDIRECT - 1, b)])
  }

  ghost predicate CanGive(sb: Super, v: Vol, own: map<nat, Slot>, i: nat, k: nat, b: nat, size: u32) {
    && Sound(sb, v, own) && i < sb.ninodes && k < SLOTS
    && b !in v.used && b < sb.size && size <= MAXFILE * BSIZE
    && (if k == NDIRECT then size == v.inodes[i].size == BSIZE * NDIRECT && v.inodes[i].addrs[NDIRECT] == 0
        else v.inodes[i].size == BSIZE * BlockOf(k) && BSIZE * BlockOf(k) < size <= BSIZE * BlockOf(k) + BSIZE)
  }

  // A free block is a data block that no pointer names.
  lemma FreeBlock(sb: Super, v: Vol, own: map<nat, Slot>, out: nat, b: nat)
    requires SoundBut(sb, v, own, out) && b !in v.used && b < sb.size
    ensures Meta(sb) <= b < |v.data| && b !in own
    ensures forall i: nat, k: nat | i < sb.ninodes && k < SLOTS :: Ptr(v, i, k) != b
  {
    forall i: nat, k: nat | i < sb.ninodes && k < SLOTS
      ensures Ptr(v, i, k) != b
    {
      assert SlotOk(sb, v, own, out, i, k);
    }
  }

  // Giving b to a pointer changes that pointer only.
  lemma GavePtrPtr(sb: Super, v: Vol, own: map<nat, Slot>, i: nat, k: nat, b: nat, size: u32, j: nat, l: nat)
    requires CanGive(sb, v, own, i, k, b, size) && k <= NDIRECT && b < |v.data| && j < sb.ninodes && l < SLOTS
    ensures Ptr(GavePtr(v, i, k, b, size), j, l) == if j == i && l == k then b else Ptr(v, j, l)
  {
    FreeBlock(sb, v, own, sb.ninodes, b);
    assert SlotOk(sb, v, own, sb.ninodes, j, l) && SlotOk(sb, v, own, sb.ninodes, j, NDIRECT);
    assert Ptr(v, j, NDIRECT) != b;
    if l > NDIRECT && j == i && k == NDIRECT {
      assert !Need(v.inodes[i].size, l);
    }
  }

  lemma GavePtrSound(sb: Super, v: Vol, own: map<nat, Slot>, i: nat, k: nat, b: nat, size: u32)
    requires CanGive(sb, v, own, i, k, b, size) && k <= NDIRECT && b < |v.data|
    ensures Sound(sb, GavePtr(v, i, k, b, size), own[b := Slot(i, k)])
  {
    FreeBlock(sb, v, own, sb.ninodes, b);
    assert SlotOk(sb, v, own, sb.ninodes, i, k);
    var w, own2 := GavePtr(v, i, k, b, size), own[b := Slot(i, k)];
    forall j: nat, l: nat | j < sb.ninodes && l < SLOTS
      ensures SlotOk(sb, w, own2, sb.ninodes, j, l)
    {
      GavePtrPtr(sb, v, own, i, k, b, size, j, l);
      assert SlotOk(sb, v, own, sb.ninodes, j, l);
    }
    forall c: nat | c in own2
      ensures OwnOk(sb, w, own2, c)
    {
      if c != b {
        assert OwnOk(sb, v, own, c);
      }
      GavePtrPtr(sb, v, own, i, k, b, size, own2[c].i, own2[c].k);
    }
  }

  lemma GaveEntryPtr(sb: Super, v: Vol, own: map<nat, Slot>, i: nat, k: nat, b: nat, size: u32, j: nat, l: nat)
    requires CanGive(sb, v, own, i, k, b, size) && k > NDIRECT && b < |v.data| && j < sb.ninodes && l < SLOTS
    requires v.inodes[i].addrs[NDIRECT] != 0 && v.inodes[i].addrs[NDIRECT] < |v.data|
    ensures Ptr(GaveEntry(v, i, k, b, size), j, l) == if j == i && l == k then b else Ptr(v, j, l)
  {
    FreeBlock(sb, v, own, sb.ninodes, b);
    assert Ptr(v, j, NDIRECT) != b && Ptr(v, i, NDIRECT) != b;
    assert SlotOk(sb, v, own, sb.ninodes, j, NDIRECT) && SlotOk(sb, v, own, sb.ninodes, i, NDIRECT);
  }

  lemma GaveEntrySound(sb: Super, v: Vol, own: map<nat, Slot>, i: nat, k: nat, b: nat, size: u32)
    requires CanGive(sb, v, own, i, k, b, size) && k > NDIRECT && b < |v.data|
    requires v.inodes[i].addrs[NDIRECT] != 0 && v.inodes[i].addrs[NDIRECT] < |v.data|
    ensures Sound(sb, GaveEntry(v, i, k, b, size), own[b := Slot(i, k)])
  {
    FreeBlock(sb, v, own, sb.ninodes, b);
    assert SlotOk(sb, v, own, sb.ninodes, i, k);
    var w, own2 := GaveEntry(v, i, k, b, size), own[b := Slot(i, k)];
    forall j: nat, l: nat | j < sb.ninodes && l < SLOTS
      ensures SlotOk(sb, w, own2, sb.ninodes, j, l)
    {
      GaveEntryPtr(sb, v, own, i, k, b, size, j, l);
      assert SlotOk(sb, v, own, sb.ninodes, j, l);
    }
    forall c: nat | c in own2
      ensures OwnOk(sb, w, own2, c)
    {
      if c != b {
        assert OwnOk(sb, v, own, c);
      }
      GaveEntryPtr(sb, v, own, i, k, b, size, own2[c].i, own2[c].k);
    }
  }

  // The bytes of the files' blocks are where they were.
  ghost predicate SameBytes(v: Vol, w: Vol, n: nat) {
    && |v.inodes| == |w.inodes| == n
    && (forall i | 0 <= i < n :: DinodeOk(v.inodes[i]) && DinodeOk(w.inodes[i]))
    && (forall i: nat, o: nat | i < n && BSIZE * (o / BSIZE) < v.inodes[i].size && o / BSIZE < MAXFILE :: ByteAt(w, i, o) == ByteAt(v, i, o))
  }

  // A block that no file byte lies in may change, if all pointers stay.
  lemma BytesKept(sb: Super, v: Vol, own: map<nat, Slot>, w: Vol, k: nat, i: nat)
    requires Sound(sb, v, own) && Shaped(sb, w) && |w.data| == |v.data| && i < sb.ninodes && k < SLOTS
    requires forall j: nat, l: nat | j < sb.ninodes && l < SLOTS && (j != i || l != k) :: Ptr(w, j, l) == Ptr(v, j, l)
    requires forall c | c in own && own[c].k != NDIRECT && c < |v.data| :: w.data[c] == v.data[c]
    requires k == NDIRECT || v.inodes[i].size <= BSIZE * BlockOf(k)
    ensures SameBytes(v, w, sb.ninodes)
  {
    forall j: nat, o: nat | j < sb.ninodes && BSIZE * (o / BSIZE) < v.inodes[j].size && o / BSIZE < MAXFILE
      ensures ByteAt(w, j, o) == ByteAt(v, j, o)
    {
      var l := SlotOf(o / BSIZE);
      assert SlotOk(sb, v, own, sb.ninodes, j, l);
    }
  }

  lemma GavePtrBytes(sb: Super, v: Vol, own: map<nat, Slot>, i: nat, k: nat, b: nat, size: u32)
    requires CanGive(sb, v, own, i, k, b, size) && k <= NDIRECT && b < |v.data|
    ensures SameBytes(v, GavePtr(v, i, k, b, size), sb.ninodes)
  {
    FreeBlock(sb, v, own, sb.ninodes, b);
    var w := GavePtr(v, i, k, b, size);
    forall j: nat, l: nat | j < sb.ninodes && l < SLOTS && (j != i || l != k)
      ensures Ptr(w, j, l) == Ptr(v, j, l)
    {
      GavePtrPtr(sb, v, own, i, k, b, size, j, l);
    }
    BytesKept(sb, v, own, w, k, i);
  }

  lemma GaveEntryBytes(sb: Super, v: Vol, own: map<nat, Slot>, i: nat, k: nat, b: nat, size: u32)
    requires CanGive(sb, v, own, i, k, b, size) && k > NDIRECT && b < |v.data|
    requires v.inodes[i].addrs[NDIRECT] != 0 && v.inodes[i].addrs[NDIRECT] < |v.data|
    ensures SameBytes(v, GaveEntry(v, i, k, b, size), sb.ninodes)
  {
    FreeBlock(sb, v, own, sb.ninodes, b);
    assert SlotOk(sb, v, own, sb.ninodes, i, NDIRECT);
    var w := GaveEntry(v, i, k, b, size);
    forall j: nat, l: nat | j < sb.ninodes && l < SLOTS && (j != i || l != k)
      ensures Ptr(w, j, l) == Ptr(v, j, l)
    {
      GaveEntryPtr(sb, v, own, i, k, b, size, j, l);
    }
    BytesKept(sb, v, own, w, k, i);
  }

  // ---------- writing data ----------

  // Data block x of file i, in slot k, holds new contents.
  lemma WrotePtr(sb: Super, v: Vol, own: map<nat, Slot>, x: nat, b: Block, j: nat, l: nat)
    requires Sound(sb, v, own) && x in own && own[x].k != NDIRECT && x < |v.data| && j < sb.ninodes && l < SLOTS
    ensures Ptr(v.(data := v.data[x := b]), j, l) == Ptr(v, j, l)
  {
    assert SlotOk(sb, v, own, sb.ninodes, j, NDIRECT);
    assert OwnOk(sb, v, own, x);
  }

  lemma WroteSound(sb: Super, v: Vol, own: map<nat, Slot>, x: nat, b: Block)
    requires Sound(sb, v, own) && x in own && own[x].k != NDIRECT && x < |v.data|
    ensures Sound(sb, v.(data := v.data[x := b]), own)
  {
    var w := v.(data := v.data[x := b]);
    forall j: nat, l: nat | j < sb.ninodes && l < SLOTS
      ensures SlotOk(sb, w, own, sb.ninodes, j, l)
    {
      WrotePtr(sb, v, own, x, b, j, l);
      assert SlotOk(sb, v, own, sb.ninodes, j, l);
    }
    forall c: nat | c in own
      ensures OwnOk(sb, w, own, c)
    {
      assert OwnOk(sb, v, own, c);
      WrotePtr(sb, v, own, x, b, own[c].i, own[c].k);
    }
  }

  // Exactly the bytes of that file block change.
  lemma WroteBytes(sb: Super, v: Vol, own: map<nat, Slot>, x: nat, b: Block, j: nat, o: nat)
    requires Sound(sb, v, own) && x in own && own[x].k != NDIRECT && x < |v.data|
    requires j < sb.ninodes && o / BSIZE < MAXFILE
    ensures ByteAt(v.(data := v.data[x := b]), j, o)
         == if Slot(j, SlotOf(o / BSIZE)) == own[x] then b[o % BSIZE] else ByteAt(v, j, o)
  {
    var l := SlotOf(o / BSIZE);
    WrotePtr(sb, v, own, x, b, j, l);
    assert SlotOk(sb, v, own, sb.ninodes, j, l) && OwnOk(sb, v, own, x);
  }

  // A size that asks for the same blocks.
  lemma SizeSound(sb: Super, v: Vol, own: map<nat, Slot>, i: nat, size: u32)
    requires Sound(sb, v, own) && i < sb.ninodes && v.inodes[i].size <= size <= MAXFILE * BSIZE
    requires (size + BSIZE - 1) / BSIZE == (v.inodes[i].size + BSIZE - 1) / BSIZE
    ensures Sound(sb, With(v, i, Sized(v.inodes[i], size)), own)
  {
    var w := With(v, i, Sized(v.inodes[i], size));
    forall j: nat, l: nat | j < sb.ninodes && l < SLOTS
      ensures Ptr(w, j, l) == Ptr(v, j, l) && SlotOk(sb, w, own, sb.ninodes, j, l)
    {
      assert SlotOk(sb, v, own, sb.ninodes, j, l);
    }
    forall c: nat | c in own
      ensures OwnOk(sb, w, own, c)
    {
      assert OwnOk(sb, v, own, c);
    }
  }
}
