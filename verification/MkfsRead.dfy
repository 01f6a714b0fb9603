/** The image that mkfs writes, read by the kernel. */
module MkfsRead {
  import opened Bytes
  import opened Device
  import opened Limits
  import opened Layout
  import opened Volume
  import opened Fs
  import opened FsFile
  import opened FileWrite
  import opened Directory
  import opened DirOps
  import opened Mkfs
  import opened MkfsMain

  // An inode read from the device, on a sound volume.
  lemma ReadIsOpen(fs: FileSystem, ip: Inode, own: map<nat, Slot>)
    requires fs.Valid() && ip.inum < fs.sb.ninodes && Sound(fs.sb, fs.V(), own)
    requires ip.Din() == fs.V().inodes[ip.inum]
    ensures fs.Open(ip, ip.size, own) && fs.E(ip, ip.size) == fs.V()
  {
    OnDevice(fs.V(), ip.inum, ip.Din());
  }

  lemma WholeEntries(k: nat)
    ensures Rounded(ENTRY * k) >= ENTRY * k && (Rounded(ENTRY * k) - ENTRY * k) % ENTRY == 0
  {
    var q := ENTRY * k / BSIZE;
    assert Rounded(ENTRY * k) - ENTRY * k == ENTRY * (32 * (q + 1) - k);
  }

  // What the files' bytes are on the finished image.
  ghost function Read(sb: Super, files: seq<Input>): (cs: seq<seq<byte>>)
    requires |files| + 2 <= sb.ninodes <= 0x1_0000
    ensures |cs| == sb.ninodes && |cs[ROOTINO]| % ENTRY == 0
    ensures NamesDistinct(files) ==> forall e | 0 <= e < |files| :: Find(cs[ROOTINO], files[e].name) == e + 2
    ensures forall e | 0 <= e < |files| :: cs[e + 2] == files[e].data
  {
    var cs := ImageFiles(sb.ninodes, files, |files|);
    var m := Rounded(|cs[ROOTINO]|) - |cs[ROOTINO]|;
    WholeEntries(|files| + 2);
    RootIsMap(files, m);
    cs[ROOTINO := cs[ROOTINO] + Zeros(m)]
  }

  // ilock, for an inode that is in use.
  method Lock(fs: FileSystem, inum: nat, ghost n: nat, ghost own: map<nat, Slot>) returns (ip: Inode)
    requires fs.Valid() && Sound(fs.sb, fs.V(), own) && Kinds(fs.V(), n) && 1 <= inum < n <= fs.sb.ninodes
    ensures fresh(ip) && ip.inum == inum && ip.typ == KindOf(inum) && fs.Open(ip, ip.size, own) && fs.E(ip, ip.size) == fs.V()
  {
    ip := new Inode(inum);
    var panicked := fs.ReadInode(ip);
    ReadIsOpen(fs, ip, own);
  }

  lemma ImageIs(sb: Super, d: Disk, own: map<nat, Slot>, files: seq<Input>)
    requires SuperOk(sb, |d|) && |files| + 2 <= sb.ninodes <= 0x1_0000 && ENTRY * (|files| + 2) % BSIZE != 0
    requires ImageOk(sb, d, own, ImageFiles(sb.ninodes, files, |files|), |files| + 2)
    ensures Sound(sb, Abs(sb, d), own) && Files(sb, Abs(sb, d), Read(sb, files)) && Kinds(Abs(sb, d), |files| + 2)
  {
    hide Sound, Files, Kinds, Abs, SuperOk;
  }

  // mkfs, and a kernel on its image.
  method Mount(sb: Super, disk: array<Block>, files: seq<Input>) returns (fs: FileSystem, ghost own: map<nat, Slot>)
    requires SuperOk(sb, disk.Length) && forall x | 0 <= x < disk.Length :: disk[x] == ZeroBlock()
    requires Fits(sb, files) && ENTRY * (|files| + 2) % BSIZE != 0
    modifies disk
    ensures fresh(fs) && fs.sb == sb && fs.disk == disk && fs.Valid()
    ensures |files| + 2 <= sb.ninodes <= 0x1_0000
    ensures Sound(sb, fs.V(), own) && Files(sb, fs.V(), Read(sb, files)) && Kinds(fs.V(), |files| + 2)
  {
    var aborted, strayed, img;
    aborted, strayed, img, own := Build(sb, disk, files);
    hide Sound, Files, Kinds, ImageOk, Read, GetSuper;
    ImageIs(sb, disk[..], own, files);
    fs := new FileSystem(sb, disk);
  }

  // namei of one name in the root.
  method LookUp(fs: FileSystem, name: seq<byte>, ghost n: nat, ghost own: map<nat, Slot>, ghost cs: seq<seq<byte>>)
    returns (inum: u16)
    requires fs.Valid() && Sound(fs.sb, fs.V(), own) && Kinds(fs.V(), n) && ROOTINO < n <= fs.sb.ninodes
    requires Files(fs.sb, fs.V(), cs) && |cs[ROOTINO]| % ENTRY == 0
    modifies fs.disk, fs`logged
    ensures fs.disk[..] == old(fs.disk[..]) && inum == Find(cs[ROOTINO], name)
  {
    hide Sound, Kinds, Find;
    var root := Lock(fs, ROOTINO, n, own);
    var panicked, k;
    panicked, inum, k := Dirlookup(fs, root, name, own);
  }

  // ilock and readi.
  method ReadAt(fs: FileSystem, inum: nat, off: nat, n: nat, ghost top: nat, ghost own: map<nat, Slot>, ghost cs: seq<seq<byte>>)
    returns (r: int, dst: seq<byte>)
    requires fs.Valid() && Sound(fs.sb, fs.V(), own) && Kinds(fs.V(), top) && 1 <= inum < top <= fs.sb.ninodes
    requires Files(fs.sb, fs.V(), cs) && off < TWO64 && n < TWO64
    modifies fs.disk, fs`logged
    ensures r == -1 <==> off > |cs[inum]| || off + n >= TWO64
    ensures r != -1 ==> r == |dst| && dst == cs[inum][off..Min(off + n, |cs[inum]|)]
  {
    hide Sound, Kinds;
    var ip := Lock(fs, inum, top, own);
    r, dst := Readi(fs, ip, off, n, own);
  }

  /** From the list of files to the bytes of one of them: mkfs writes the image, and the kernel looks the
      file's name up in the root and reads from the inode it finds. */
  method ReadFile(sb: Super, disk: array<Block>, files: seq<Input>, e: nat, off: nat, n: nat)
    returns (inum: u16, r: int, dst: seq<byte>)
    requires SuperOk(sb, disk.Length) && forall x | 0 <= x < disk.Length :: disk[x] == ZeroBlock()
    requires Fits(sb, files) && NamesDistinct(files) && ENTRY * (|files| + 2) % BSIZE != 0
    requires e < |files| && off < TWO64 && n < TWO64
    modifies disk
    ensures inum == e + 2 && (r == -1 <==> off > |files[e].data| || off + n >= TWO64)
    ensures r != -1 ==> r == |dst| && dst == files[e].data[off..Min(off + n, |files[e].data|)]
  {
    hide Sound, Kinds, Files, Fits, NamesDistinct;
    var fs;
    ghost var own;
    fs, own := Mount(sb, disk, files);
    ghost var cs := Read(sb, files);
    inum := LookUp(fs, files[e].name, |files| + 2, own, cs);
    r, dst := ReadAt(fs, inum, off, n, |files| + 2, own, cs);
  }
}
