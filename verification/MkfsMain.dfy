/** mkfs's main: the whole image, and when it is a volume as the kernel keeps it. */
module MkfsMain {
  import opened Bits
  import opened Bytes
  import opened Device
  import opened Limits
  import opened Layout
  import opened Volume
  import opened FsFile
  import opened FileWrite
  import opened Directory
  import opened Mkfs

  const FSSIZE := 1000
  const NINODES := 200

  // The super block main makes.
  function MkfsSuper(): Super {
    var ninodeblocks, nbitmap, nlog := NINODES / IPB + 1, FSSIZE / (BSIZE * 8) + 1, LOGSIZE;
    Super(FSSIZE, FSSIZE - (2 + nlog + ninodeblocks + nbitmap), NINODES, nlog, 2, 2 + nlog, 2 + nlog + ninodeblocks)
  }

  // It describes a layout whose regions do not overlap.
  lemma MkfsSuperOk()
    ensures SuperOk(MkfsSuper(), FSSIZE) && Meta(MkfsSuper()) - MkfsSuper().bmapstart == 1
    ensures MkfsSuper() == Super(1000, 941, 200, 30, 2, 32, 58)
  {
    assert NINODES / IPB == 25 && FSSIZE / (BSIZE * 8) == 0;
  }

  datatype Input = Input(name: seq<byte>, data: seq<byte>)

  // The root directory's entries after the first k files.
  function RootBytes(files: seq<Input>, k: nat): (c: seq<byte>)
    requires k <= |files| && k <= 0x1_0000 - 2
    ensures |c| == ENTRY * (k + 2)
  {
    if k == 0 then EntryBytes([46], ROOTINO) + EntryBytes([46, 46], ROOTINO)
    else RootBytes(files, k - 1) + EntryBytes(files[k - 1].name, k + 1)
  }

  // All files by inode number after the first k files: 1 is the root, 2 .. are the inputs.
  ghost function ImageFiles(n: nat, files: seq<Input>, k: nat): (cs: seq<seq<byte>>)
    requires k <= |files| && k <= 0x1_0000 - 2
    ensures |cs| == n
  {
    seq(n, i requires 0 <= i < n => FileAt(files, k, i))
  }

  function FileAt(files: seq<Input>, k: nat, i: nat): seq<byte>
    requires k <= |files| && k <= 0x1_0000 - 2
  {
    if i == ROOTINO then RootBytes(files, k) else if 2 <= i < k + 2 then files[i - 2].data else []
  }

  // A fresh image is sound: everything but the metadata is free.
  lemma FreshSound(sb: Super, d: Disk)
    requires SuperOk(sb, |d|) && forall x | 0 <= x < |d| && x != 1 :: d[x] == ZeroBlock()
    ensures var v := Abs(sb, d).(used := UpTo(Meta(sb)));
            Clean(sb, v, Meta(sb)) && Sound(sb, v, map[]) && AllTight(v, sb.ninodes) && Blank(v, 0)
            && Files(sb, v, seq(sb.ninodes, _ => [])) && Abs(sb, d).used == {}
  {
    var v := Abs(sb, d).(used := UpTo(Meta(sb)));
    Regions(sb, |d|);
    forall i: nat | i < sb.ninodes
      ensures v.inodes[i] == NOINODE
    {
      ZeroInode(i % IPB);
    }
    forall b: nat | b < sb.size
      ensures !Used(sb, d, b)
    {
      ZeroBit(b % BPB % 8);
    }
    forall i: nat, k: nat | i < sb.ninodes && k < SLOTS
      ensures SlotOk(sb, v, map[], sb.ninodes, i, k)
    {
    }
    forall j: nat | j < sb.ninodes
      ensures Tight(v, j) && Contents(v, j) == []
    {
    }
  }

  lemma ZeroInode(s: nat)
    requires s < IPB
    ensures GetDinode(ZeroBlock(), s) == NOINODE
  {
    assert Addrs(ZeroBlock(), 64 * s + 12) == [0, 0, 0, 0, 0, 0, 0, 0, 0, 0, 0, 0, 0];
  }

  // One input: its inode, its root entry and its bytes.
  method AddFile(img: Image, files: seq<Input>, k: nat, ghost own: map<nat, Slot>) returns (aborted: bool, ghost own2: map<nat, Slot>)
    requires k < |files| && k + 2 < img.sb.ninodes <= 0x1_0000 && img.freeinode == k + 2
    requires img.Built(own, ImageFiles(img.sb.ninodes, files, k))
    modifies img`freeblock, img`freeinode, img.disk
    ensures aborted ==> |files[k].data| > MAXBYTES || ENTRY * (k + 3) > MAXBYTES || img.Full(ImageFiles(img.sb.ninodes, files, k + 1))
    ensures !aborted ==> img.freeinode == k + 3 && img.Built(own2, ImageFiles(img.sb.ninodes, files, k + 1))
  {
    hide Files, Sound, Clean, AllTight, Blank;
    ghost var cs := ImageFiles(img.sb.ninodes, files, k);
    ImageStep(img.sb.ninodes, files, k);
    var inum := img.Ialloc(T_FILE, own, cs);
    var de := EntryBytes(files[k].name, inum);
    aborted, own2 := img.AppendTo(ROOTINO, de, own, cs);
    ghost var ds := cs[ROOTINO := cs[ROOTINO] + de];
    TotalGrows(ds, ds[inum := files[k].data]);
    if !aborted {
      aborted, own2 := img.AppendAll(inum, files[k].data, own2, ds);
    }
  }

  lemma ImageStep(n: nat, files: seq<Input>, k: nat)
    requires k < |files| && k + 2 < n <= 0x1_0000
    ensures var cs := ImageFiles(n, files, k);
            && |cs[ROOTINO]| == ENTRY * (k + 2) && cs[k + 2] == []
            && cs[ROOTINO := cs[ROOTINO] + EntryBytes(files[k].name, k + 2)][k + 2 := files[k].data] == ImageFiles(n, files, k + 1)
  {
  }

  // The root directory and its two entries.
  method MakeRoot(img: Image, files: seq<Input>) returns (aborted: bool, ghost own: map<nat, Slot>)
    requires SuperOk(img.sb, img.disk.Length) && forall x | 0 <= x < img.disk.Length && x != 1 :: img.disk[x] == ZeroBlock()
    requires img.freeblock == Meta(img.sb) && img.freeinode == 1 && 2 <= img.sb.ninodes <= 0x1_0000
    requires img.disk[1] == PutSuper(img.sb, img.disk.Length)
    modifies img`freeblock, img`freeinode, img.disk
    ensures aborted ==> img.Full(ImageFiles(img.sb.ninodes, files, 0))
    ensures !aborted ==> img.freeinode == 2 && img.Built(own, ImageFiles(img.sb.ninodes, files, 0))
  {
    hide Files, Sound, Clean, AllTight, Kinds, Blank;
    FreshSound(img.sb, img.disk[..]);
    own := map[];
    ghost var cs: seq<seq<byte>> := seq(img.sb.ninodes, _ => []);
    TotalNone(cs);
    var root := img.Ialloc(T_DIR, own, cs);
    aborted, own := img.AppendTo(root, EntryBytes([46], ROOTINO), own, cs);
    ghost var dot := EntryBytes([46], ROOTINO);
    ghost var ds := cs[root := dot];
    assert [] + dot == dot;
    TotalGrows(ds, ImageFiles(img.sb.ninodes, files, 0));
    if !aborted {
      aborted, own := img.AppendTo(root, EntryBytes([46, 46], ROOTINO), own, ds);
      assert ds[root := dot + EntryBytes([46, 46], ROOTINO)] == ImageFiles(img.sb.ninodes, files, 0);
    }
  }

  // ---------- the root's size ----------

  // Main rounds the root's size up to whole blocks, one more if it is whole already.
  function Rounded(size: nat): nat { (size / BSIZE + 1) * BSIZE }

  // The inode i with its size rounded.
  ghost function RootRounded(v: Vol, i: nat): Vol
    requires i < |v.inodes| && Rounded(v.inodes[i].size) < 0x1_0000_0000
  {
    With(v, i, Sized(v.inodes[i], Rounded(v.inodes[i].size)))
  }

  lemma RoundedCeiling(size: nat)
    requires size % BSIZE != 0
    ensures (Rounded(size) + BSIZE - 1) / BSIZE == (size + BSIZE - 1) / BSIZE && size <= Rounded(size)
    ensures size <= MAXBYTES ==> Rounded(size) <= MAXBYTES
  {
  }

  function Zeros(n: nat): seq<byte> { seq(n, _ => 0) }

  /** The rounded directory: if its size was not a multiple of the block size, the volume stays sound
      and the directory has gained zero bytes, that is, free entries. If it was, there is a hole, and
      the volume is sound under no ownership at all. */
  lemma RoundedRoot(sb: Super, v: Vol, own: map<nat, Slot>, cs: seq<seq<byte>>, i: nat)
    requires Sound(sb, v, own) && AllTight(v, sb.ninodes) && Files(sb, v, cs) && i < sb.ninodes
    ensures v.inodes[i].size <= MAXBYTES
    ensures v.inodes[i].size % BSIZE != 0 ==>
              && Sound(sb, RootRounded(v, i), own)
              && Files(sb, RootRounded(v, i), cs[i := cs[i] + Zeros(Rounded(v.inodes[i].size) - v.inodes[i].size)])
    ensures v.inodes[i].size % BSIZE == 0 ==> forall o :: !Sound(sb, RootRounded(v, i), o)
  {
    var size := v.inodes[i].size;
    if size % BSIZE != 0 {
      RoundedCeiling(size);
      SizeSound(sb, v, own, i, Rounded(size));
      RoundedFiles(sb, v, cs, i);
    } else {
      forall o
        ensures !Sound(sb, RootRounded(v, i), o)
      {
        HoleUnsound(sb, v, own, i, o);
      }
    }
  }

  // A byte of a file, as the size of another or its own counts.
  lemma RoundedByte(v: Vol, i: nat, j: nat, o: nat)
    requires i < |v.inodes| && j < |v.inodes| && DinodeOk(v.inodes[i]) && DinodeOk(v.inodes[j]) && o / BSIZE < MAXFILE
    requires Rounded(v.inodes[i].size) < 0x1_0000_0000
    ensures DinodeOk(RootRounded(v, i).inodes[j]) && ByteAt(RootRounded(v, i), j, o) == ByteAt(v, j, o)
  {
  }

  lemma RoundedContents(v: Vol, i: nat)
    requires i < |v.inodes| && Tight(v, i) && v.inodes[i].size < MAXBYTES && v.inodes[i].size % BSIZE != 0
    ensures var size := v.inodes[i].size;
            && size <= Rounded(size) <= MAXBYTES && DinodeOk(RootRounded(v, i).inodes[i])
            && Contents(RootRounded(v, i), i) == Contents(v, i) + Zeros(Rounded(size) - size)
  {
    var size := v.inodes[i].size;
    RoundedCeiling(size);
    var w := RootRounded(v, i);
    var c, d := Contents(w, i), Contents(v, i) + Zeros(Rounded(size) - size);
    assert |c| == |d|;
    forall o: nat | o < |c|
      ensures c[o] == d[o]
    {
      RoundedByte(v, i, i, o);
      if o >= size {
        assert BSIZE * (o / BSIZE) < size;
      }
    }
  }

  lemma RoundedFiles(sb: Super, v: Vol, cs: seq<seq<byte>>, i: nat)
    requires Shaped(sb, v) && AllTight(v, sb.ninodes) && Files(sb, v, cs) && i < sb.ninodes
    requires v.inodes[i].size < MAXBYTES && v.inodes[i].size % BSIZE != 0
    ensures Files(sb, RootRounded(v, i), cs[i := cs[i] + Zeros(Rounded(v.inodes[i].size) - v.inodes[i].size)])
  {
    assert Tight(v, i);
    RoundedContents(v, i);
    var w := RootRounded(v, i);
    forall j: nat | j < sb.ninodes && j != i
      ensures Contents(w, j) == Contents(v, j)
    {
      forall o: nat | o < |Contents(w, j)|
        ensures Contents(w, j)[o] == Contents(v, j)[o]
      {
        RoundedByte(v, i, j, o);
      }
    }
  }

  lemma HoleUnsound(sb: Super, v: Vol, own: map<nat, Slot>, i: nat, o: map<nat, Slot>)
    requires Sound(sb, v, own) && i < sb.ninodes && v.inodes[i].size <= MAXBYTES && v.inodes[i].size % BSIZE == 0
    ensures !Sound(sb, RootRounded(v, i), o)
  {
    var w := RootRounded(v, i);
    if v.inodes[i].size == MAXBYTES {
      assert w.inodes[i].size > MAXBYTES;
    } else {
      var k := SlotOf(v.inodes[i].size / BSIZE);
      assert SlotOk(sb, v, own, sb.ninodes, i, k);
      assert Ptr(w, i, k) == Ptr(v, i, k) == 0;
      if Sound(sb, w, o) {
        SlotHere(sb, w, o, i, k);
      }
    }
  }

  lemma SlotHere(sb: Super, v: Vol, own: map<nat, Slot>, i: nat, k: nat)
    requires Sound(sb, v, own) && i < sb.ninodes && k < SLOTS
    ensures SlotOk(sb, v, own, sb.ninodes, i, k)
  {
    assert SlotOk(sb, v, own, sb.ninodes, i, k);
  }

  // ---------- the bitmap ----------

  lemma AbsBitmap(sb: Super, d: Disk, buf: Block, used: nat)
    requires SuperOk(sb, |d|) && Abs(sb, d).used == {} && used <= sb.size && used < BPB && sb.size > 0
    requires forall c: nat | c < BPB :: GetBit(buf, c) <==> c < used
    ensures BBlock(sb, 0) == sb.bmapstart < |d| && Abs(sb, d[sb.bmapstart := buf]) == Abs(sb, d).(used := UpTo(used))
  {
    Regions(sb, |d|);
    assert BBlock(sb, 0) == sb.bmapstart;
    var e := d[sb.bmapstart := buf];
    forall b: nat | b < sb.size
      ensures Used(sb, e, b) <==> b < used
    {
      assert Used(sb, d, b) <==> b in Abs(sb, d).used;
    }
    assert Abs(sb, e).used == UpTo(used);
    assert forall i: nat | i < sb.ninodes :: DinodeAt(sb, e, i) == DinodeAt(sb, d, i);
    assert Abs(sb, e).data == Abs(sb, d).data;
  }

  // balloc: one bitmap block with the first used bits set.
  method BitmapBlock(used: nat) returns (buf: Block)
    requires used < BPB
    ensures forall c: nat | c < BPB :: GetBit(buf, c) <==> c < used
  {
    buf := ZeroBlock();
    forall c: nat | c < BPB
      ensures !GetBit(buf, c)
    {
      ZeroBit(c % 8);
    }
    var i := 0;
    while i < used
      invariant i <= used && forall c: nat | c < BPB :: GetBit(buf, c) <==> c < i
    {
      forall c: nat | c < BPB
        ensures GetBit(SetBit(buf, i), c) <==> GetBit(buf, c) || c == i
      {
        SetBitAt(buf, i, c);
      }
      buf := SetBit(buf, i);
      i := i + 1;
    }
  }

  // What the kernel finds: inodes 1 .. n - 1 in use, and a sound volume with those files, the root filled
  // up with free entries, unless the root's size was whole.
  ghost predicate ImageOk(sb: Super, d: Disk, own: map<nat, Slot>, cs: seq<seq<byte>>, n: nat)
    requires SuperOk(sb, |d|) && |cs| == sb.ninodes
  {
    && |cs| > ROOTINO && Kinds(Abs(sb, d), n)
    && var size := |cs[ROOTINO]|;
       if size % BSIZE == 0 then forall o :: !Sound(sb, Abs(sb, d), o)
       else Sound(sb, Abs(sb, d), own) && Files(sb, Abs(sb, d), cs[ROOTINO := cs[ROOTINO] + Zeros(Rounded(size) - size)])
  }

  // rinode, rounding, winode
  method FixRoot(img: Image)
    requires SuperOk(img.sb, img.disk.Length) && img.sb.ninodes > ROOTINO && img.V().inodes[ROOTINO].size <= MAXBYTES
    modifies img.disk
    ensures img.V() == RootRounded(old(img.V()), ROOTINO) && img.U() == old(img.U())
  {
    Regions(img.sb, img.disk.Length);
    var din := GetDinode(img.disk[IBlock(img.sb, ROOTINO)], ROOTINO % IPB);
    assert din == img.V().inodes[ROOTINO];
    img.Winode(ROOTINO, Sized(din, Rounded(din.size)));
  }

  // The bitmap block, over a device without a bit set.
  method WriteBitmap(img: Image)
    requires SuperOk(img.sb, img.disk.Length) && img.U().0 == {} && img.freeblock <= img.sb.size && img.freeblock < BPB && img.sb.size > 0
    modifies img.disk
    ensures Abs(img.sb, img.disk[..]) == old(img.V()) && img.disk[1] == old(img.disk[1])
  {
    Regions(img.sb, img.disk.Length);
    var buf := BitmapBlock(img.freeblock);
    AbsBitmap(img.sb, img.disk[..], buf, img.freeblock);
    img.disk[img.sb.bmapstart] := buf;
  }

  lemma FinishOk(sb: Super, v: Vol, own: map<nat, Slot>, cs: seq<seq<byte>>, d: Disk, n: nat)
    requires Sound(sb, v, own) && AllTight(v, sb.ninodes) && Files(sb, v, cs) && ROOTINO < sb.ninodes && SuperOk(sb, |d|)
    requires v.inodes[ROOTINO].size <= MAXBYTES && Abs(sb, d) == RootRounded(v, ROOTINO) && Kinds(v, n)
    ensures |cs| == sb.ninodes && ImageOk(sb, d, own, cs, n)
  {
    RoundedRoot(sb, v, own, cs, ROOTINO);
  }

  // What Built says of the root's size and of the counters.
  lemma BuiltAt(img: Image, own: map<nat, Slot>, cs: seq<seq<byte>>)
    requires img.Built(own, cs)
    ensures |cs| == img.sb.ninodes && img.sb.nblocks <= img.sb.size && img.freeblock == Meta(img.sb) + Total(cs) <= img.sb.size && img.sb.size > 0
    ensures img.sb.ninodes > ROOTINO ==> img.V().inodes[ROOTINO].size <= MAXBYTES
  {
  }

  // The end of main: the root's size, and the bitmap.
  method Finish(img: Image, ghost own: map<nat, Slot>, ghost cs: seq<seq<byte>>) returns (aborted: bool)
    requires img.Built(own, cs) && img.sb.ninodes > ROOTINO
    modifies img.disk
    ensures SuperOk(img.sb, img.disk.Length) && |cs| == img.sb.ninodes
    ensures aborted <==> Meta(img.sb) + Total(cs) >= BPB
    ensures !aborted ==> ImageOk(img.sb, img.disk[..], own, cs, img.freeinode) && img.disk[1] == PutSuper(img.sb, img.disk.Length)
  {
    BuiltAt(img, own, cs);
    hide Files, Sound, AllTight, Clean, Blank, ImageOk, Abs, Kinds;
    ghost var v := img.V();
    FixRoot(img);
    aborted := img.freeblock >= BPB;
    if !aborted {
      WriteBitmap(img);
      FinishOk(img.sb, v, own, cs, img.disk[..], img.freeinode);
    }
  }

  // There is an inode and there are blocks for every file, and the root can list them.
  ghost predicate Fits(sb: Super, files: seq<Input>) {
    && |files| + 2 <= sb.ninodes <= 0x1_0000 && sb.nblocks <= sb.size
    && (forall f | f in files :: |f.data| <= MAXBYTES) && ENTRY * (|files| + 2) <= MAXBYTES
    && var end := Meta(sb) + Total(ImageFiles(sb.ninodes, files, |files|));
       end <= sb.size && end < BPB
  }

  // Where the loop over the inputs has got to.
  ghost predicate Going(img: Image, files: seq<Input>, k: nat, own: map<nat, Slot>, aborted: bool)
    reads img, img.disk
  {
    if aborted then !Fits(img.sb, files)
    else
      && k <= |files| && k + 2 <= img.sb.ninodes <= 0x1_0000 && img.freeinode == k + 2
      && img.Built(own, ImageFiles(img.sb.ninodes, files, k))
  }

  // What does not fit on the way does not fit in the end.
  lemma FullLater(sb: Super, files: seq<Input>, k: nat)
    requires k <= |files| && k <= 0x1_0000 - 2 && sb.nblocks <= sb.size
    requires Meta(sb) + Total(ImageFiles(sb.ninodes, files, k)) > sb.size
    ensures !Fits(sb, files)
  {
    if |files| + 2 <= sb.ninodes <= 0x1_0000 {
      TotalGrows(ImageFiles(sb.ninodes, files, k), ImageFiles(sb.ninodes, files, |files|));
    }
  }

  // Whether ialloc would hand out an inode outside the table.
  method CountedOut(img: Image, files: seq<Input>, k: nat, ghost own: map<nat, Slot>) returns (strayed: bool)
    requires Going(img, files, k, own, false) && k < |files|
    ensures strayed ==> |files| + 2 > img.sb.ninodes
    ensures !strayed ==> k + 2 < img.sb.ninodes
  {
    strayed := img.freeinode >= img.sb.ninodes;
  }

  method AddOne(img: Image, files: seq<Input>, k: nat, ghost own: map<nat, Slot>) returns (aborted: bool, ghost own2: map<nat, Slot>)
    requires Going(img, files, k, own, false) && k < |files| && k + 2 < img.sb.ninodes
    modifies img`freeblock, img`freeinode, img.disk
    ensures Going(img, files, k + 1, own2, aborted)
  {
    aborted, own2 := AddFile(img, files, k, own);
    assert files[k] in files;
    if aborted && img.Full(ImageFiles(img.sb.ninodes, files, k + 1)) {
      FullLater(img.sb, files, k + 1);
    }
  }

  lemma GoingAt(img: Image, files: seq<Input>, k: nat, own: map<nat, Slot>, aborted: bool, strayed: bool)
    requires !strayed ==> Going(img, files, k, own, aborted)
    requires k <= |files| && (k < |files| ==> aborted || strayed) && (strayed ==> !aborted)
    ensures aborted ==> !Fits(img.sb, files)
    ensures !aborted && !strayed ==> |files| + 2 <= img.sb.ninodes
    ensures Going(img, files, |files|, own, aborted || strayed) || (strayed && !aborted)
  {
  }

  // The loop over the inputs, up to the first inode outside the table.
  method AddFiles(img: Image, files: seq<Input>, ghost own: map<nat, Slot>)
    returns (aborted: bool, strayed: bool, ghost own2: map<nat, Slot>)
    requires Going(img, files, 0, own, false)
    modifies img`freeblock, img`freeinode, img.disk
    ensures Going(img, files, |files|, own2, aborted || strayed) || strayed
    ensures !aborted ==> (strayed <==> |files| + 2 > img.sb.ninodes)
    ensures strayed ==> !aborted
    ensures aborted ==> !Fits(img.sb, files)
  {
    hide Going, Fits;
    aborted, strayed, own2 := false, false, own;
    var k := 0;
    while k < |files| && !aborted && !strayed
      invariant k <= |files| && (strayed ==> !aborted && |files| + 2 > img.sb.ninodes)
      invariant !strayed ==> Going(img, files, k, own2, aborted)
      decreases |files| - k, !aborted, !strayed
    {
      strayed := CountedOut(img, files, k, own2);
      if !strayed {
        aborted, own2 := AddOne(img, files, k, own2);
        k := k + 1;
      }
    }
    GoingAt(img, files, k, own2, aborted, strayed);
  }

  // At the end of the loop the files' blocks have been counted.
  lemma BuiltFits(img: Image, files: seq<Input>, own: map<nat, Slot>)
    requires Going(img, files, |files|, own, false)
    ensures |files| + 2 <= img.sb.ninodes <= 0x1_0000 && img.sb.nblocks <= img.sb.size
    ensures Fits(img.sb, files) <==> Meta(img.sb) + Total(ImageFiles(img.sb.ninodes, files, |files|)) < BPB
  {
    hide Sound, Clean, AllTight, Blank, Kinds, Files;
    var cs := ImageFiles(img.sb.ninodes, files, |files|);
    BuiltAt(img, own, cs);
    forall i: nat | i < img.sb.ninodes
      ensures |cs[i]| <= MAXBYTES
    {
      img.BuiltAt(own, cs, i);
    }
    assert |cs[ROOTINO]| == ENTRY * (|files| + 2);
    forall f | f in files
      ensures |f.data| <= MAXBYTES
    {
      var e :| 0 <= e < |files| && files[e] == f;
      assert cs[e + 2] == f.data;
    }
  }

  // The beginning of main: the super block and the root.
  method Begin(sb: Super, disk: array<Block>, files: seq<Input>)
    returns (aborted: bool, img: Image, ghost own: map<nat, Slot>)
    requires SuperOk(sb, disk.Length) && forall x | 0 <= x < disk.Length :: disk[x] == ZeroBlock()
    requires 2 <= sb.ninodes <= 0x1_0000
    modifies disk
    ensures fresh(img) && img.sb == sb && img.disk == disk && Going(img, files, 0, own, aborted)
  {
    hide Files, Sound, Clean, AllTight, Blank, Kinds, Fits;
    Regions(sb, disk.Length);
    disk[1] := PutSuper(sb, disk.Length);
    img := new Image(sb, disk);
    aborted, own := MakeRoot(img, files);
    if aborted {
      FullLater(sb, files, 0);
    }
  }

  // The end of main, when all files are in.
  method End(img: Image, files: seq<Input>, ghost own: map<nat, Slot>) returns (aborted: bool)
    requires Going(img, files, |files|, own, false)
    modifies img.disk
    ensures aborted <==> !Fits(img.sb, files)
    ensures !aborted ==> SuperOk(img.sb, img.disk.Length) && |files| + 2 <= img.sb.ninodes <= 0x1_0000
                         && ImageOk(img.sb, img.disk[..], own, ImageFiles(img.sb.ninodes, files, |files|), |files| + 2)
                         && GetSuper(img.disk[1]) == img.sb
  {
    hide Files, Sound, Clean, AllTight, Blank, ImageOk, Kinds, Fits;
    BuiltFits(img, files, own);
    aborted := Finish(img, own, ImageFiles(img.sb.ninodes, files, |files|));
    SuperBack(img.sb, img.disk.Length);
  }

  /** Exactly the lists of files that fit become an image, and it is what the kernel will read, with the
      ownership invariant holding from the start, provided the root directory does not fill whole blocks.
      Main does not count the files: it strays, writing an inode outside the table, exactly if there are
      more of them than the table has room for and it has not stopped before; nor does it see the end of
      the image. It is followed up to there. */
  method Build(sb: Super, disk: array<Block>, files: seq<Input>)
    returns (aborted: bool, strayed: bool, img: Image, ghost own: map<nat, Slot>)
    requires SuperOk(sb, disk.Length) && forall x | 0 <= x < disk.Length :: disk[x] == ZeroBlock()
    requires 2 <= sb.ninodes <= 0x1_0000
    modifies disk
    ensures fresh(img) && img.sb == sb && img.disk == disk
    ensures !aborted && !strayed <==> Fits(sb, files)
    ensures !aborted ==> (strayed <==> |files| + 2 > sb.ninodes)
    ensures !aborted && !strayed ==>
              ImageOk(sb, disk[..], own, ImageFiles(sb.ninodes, files, |files|), |files| + 2) && GetSuper(disk[1]) == sb
  {
    aborted, img, own := Begin(sb, disk, files);
    hide *;
    strayed := false;
    if !aborted {
      aborted, strayed, own := AddFiles(img, files, own);
    } else {
      NotGoing(img, files, 0, own);
    }
    if strayed {
      TooMany(sb, files);
    } else if !aborted {
      aborted := End(img, files, own);
    }
  }

  lemma NotGoing(img: Image, files: seq<Input>, k: nat, own: map<nat, Slot>)
    requires Going(img, files, k, own, true)
    ensures !Fits(img.sb, files)
  {
  }

  lemma TooMany(sb: Super, files: seq<Input>)
    requires |files| + 2 > sb.ninodes
    ensures !Fits(sb, files)
  {
  }

  // ---------- the root directory as a map ----------

  // What entry e of the root is to say.
  function WantInum(e: nat): nat { if e < 2 then ROOTINO else e }

  function WantName(files: seq<Input>, e: nat): seq<byte>
    requires e < |files| + 2
  {
    if e == 0 then [46] else if e == 1 then [46, 46] else Proper(files[e - 2].name)
  }

  ghost predicate Says(c: seq<byte>, files: seq<Input>, e: nat)
    requires e < |files| + 2
  {
    e < Count(c) && Inum(c, e) == WantInum(e) && Proper(Name(c, e)) == WantName(files, e)
  }

  lemma DotNames()
    ensures Proper([46]) == [46] && Proper([46, 46]) == [46, 46]
  {
    assert Directory.At([46], 1) == 0 && Directory.At([46, 46], 2) == 0;
    assert Cut([46], 1, DIRSIZ) == [] && Cut([46, 46], 2, DIRSIZ) == [];
    assert Cut([46, 46], 1, DIRSIZ) == [46];
  }

  // An entry appended, and the others kept.
  lemma OneMoreEntry(c: seq<byte>, name: seq<byte>, inum: u16)
    requires |c| % ENTRY == 0
    ensures var d := c + EntryBytes(name, inum);
            && Count(d) == Count(c) + 1 && |d| % ENTRY == 0
            && Inum(d, Count(c)) == inum && Proper(Name(d, Count(c))) == Proper(name)
            && forall j: nat | j < Count(c) :: Inum(d, j) == Inum(c, j) && Name(d, j) == Name(c, j)
  {
    hide Proper, EntryBytes;
    EntryAt(c, Count(c), name, inum);
    assert Spliced(c, |c|, EntryBytes(name, inum)) == c + EntryBytes(name, inum);
  }

  lemma {:induction false} RootSays(files: seq<Input>, k: nat)
    requires k <= |files| && k <= 0x1_0000 - 2
    ensures Count(RootBytes(files, k)) == k + 2 && forall e: nat | e < k + 2 :: Says(RootBytes(files, k), files, e)
    decreases k
  {
    hide Inum, Name, Proper, EntryBytes;
    if k == 0 {
      DotNames();
      OneMoreEntry([], [46], ROOTINO);
      assert [] + EntryBytes([46], ROOTINO) == EntryBytes([46], ROOTINO);
      OneMoreEntry(EntryBytes([46], ROOTINO), [46, 46], ROOTINO);
    } else {
      var c, d := RootBytes(files, k - 1), RootBytes(files, k);
      RootSays(files, k - 1);
      OneMoreEntry(c, files[k - 1].name, k + 1);
      forall e: nat | e < k + 2
        ensures Says(d, files, e)
      {
        if e < k + 1 {
          assert Says(c, files, e);
        }
      }
    }
  }

  lemma {:induction false} FilledUp(c: seq<byte>, m: nat)
    requires |c| % ENTRY == 0 && m % ENTRY == 0
    ensures var d := c + Zeros(m);
            && Count(d) >= Count(c) && |d| % ENTRY == 0
            && (forall j: nat | j < Count(c) :: Inum(d, j) == Inum(c, j) && Name(d, j) == Name(c, j))
            && (forall j: nat | Count(c) <= j < Count(d) :: Inum(d, j) == 0)
  {
    var d := c + Zeros(m);
    forall j: nat | j < Count(c)
      ensures Inum(d, j) == Inum(c, j) && Name(d, j) == Name(c, j)
    {
      SameEntry(c, d, j);
    }
  }

  // No two inputs have equal names, and none is "." or "..".
  predicate NamesDistinct(files: seq<Input>) {
    forall e: nat, f: nat | e < f < |files| + 2 :: WantName(files, e) != WantName(files, f)
  }

  /** The root of the image is a map from names, as directories must be, exactly if no two inputs have
      equal names under namecmp and none is "." or ".."; then every input is found under its name. */
  lemma RootIsMap(files: seq<Input>, m: nat)
    requires |files| <= 0x1_0000 - 2 && m % ENTRY == 0
    ensures var d := RootBytes(files, |files|) + Zeros(m);
            && |d| % ENTRY == 0
            && (Distinct(d) <==> NamesDistinct(files))
            && (NamesDistinct(files) ==> forall i | 0 <= i < |files| :: Find(d, files[i].name) == i + 2)
  {
    hide Inum, Name, Proper, Count;
    var c := RootBytes(files, |files|);
    var d := c + Zeros(m);
    RootSays(files, |files|);
    assert |c| % ENTRY == 0;
    FilledUp(c, m);
    forall e: nat | e < |files| + 2
      ensures Says(d, files, e)
    {
      assert Says(c, files, e);
    }
    if !NamesDistinct(files) {
      var e: nat, f: nat :| e < f < |files| + 2 && WantName(files, e) == WantName(files, f);
      assert Says(d, files, e) && Says(d, files, f);
    }
    if NamesDistinct(files) {
      RootDistinct(files, d);
      forall i | 0 <= i < |files|
        ensures Find(d, files[i].name) == i + 2
      {
        RootFinds(files, d, i);
      }
    }
  }

  lemma RootDistinct(files: seq<Input>, d: seq<byte>)
    requires NamesDistinct(files) && forall e: nat | e < |files| + 2 :: Says(d, files, e)
    requires forall j: nat | |files| + 2 <= j < Count(d) :: Inum(d, j) == 0
    ensures Distinct(d)
  {
    hide Inum, Name, Proper, Count;
    forall j: nat, l: nat | j < l < Count(d) && Inum(d, j) != 0 && Inum(d, l) != 0
      ensures Proper(Name(d, j)) != Proper(Name(d, l))
    {
      assert Says(d, files, j) && Says(d, files, l);
    }
  }

  lemma RootFinds(files: seq<Input>, d: seq<byte>, i: nat)
    requires NamesDistinct(files) && forall e: nat | e < |files| + 2 :: Says(d, files, e)
    requires i < |files|
    ensures Find(d, files[i].name) == i + 2
  {
    hide Inum, Name, Proper, Count;
    var name := files[i].name;
    forall e: nat | e < i + 2
      ensures !Hit(d, name, e)
    {
      assert Says(d, files, e) && WantName(files, e) != WantName(files, i + 2);
    }
    assert Says(d, files, i + 2);
    LookupSkips(d, name, i + 2);
  }
}
