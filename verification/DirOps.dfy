/** dirlookup and dirlink (kern/fs.c). */
module DirOps {
  import opened Bytes
  import opened Layout
  import opened Volume
  import opened Fs
  import opened FsFile
  import opened Directory

  // The directory's bytes.
  ghost function Dir(fs: FileSystem, dp: Inode): seq<byte>
    requires fs.Valid() && dp.inum < fs.sb.ninodes && |dp.addrs| == NDIRECT + 1 && dp.size <= MAXBYTES
    reads fs, fs.disk, dp
  {
    Contents(fs.E(dp, dp.size), dp.inum)
  }

  lemma DirSize(fs: FileSystem, dp: Inode, own: map<nat, Slot>)
    requires fs.Open(dp, dp.size, own)
    ensures dp.size <= MAXBYTES && |Dir(fs, dp)| == dp.size
  {
    assert fs.E(dp, dp.size).inodes[dp.inum].size == dp.size;
  }

  // readi of entry k; the panic happens exactly if the directory ends inside it.
  method ReadEntry(fs: FileSystem, dp: Inode, k: nat, ghost own: map<nat, Slot>)
    returns (panicked: bool, inum: u16, name: seq<byte>)
    requires fs.Open(dp, dp.size, own) && dp.typ == T_DIR && ENTRY * k < dp.size
    modifies fs.disk, fs`logged, dp`addrs
    ensures fs.Unchanged(dp) && fs.Open(dp, dp.size, own) && dp.size <= MAXBYTES
    ensures panicked <==> k >= Count(Dir(fs, dp))
    ensures !panicked ==> inum == Inum(Dir(fs, dp), k) && name == Name(Dir(fs, dp), k)
  {
    DirSize(fs, dp, own);
    var r, de := Readi(fs, dp, ENTRY * k, ENTRY, own);
    panicked, inum, name := r != ENTRY, 0, [];
    if !panicked {
      EntrySlice(Dir(fs, dp), k);
      inum, name := Get16(de, 0), de[2..];
    }
  }

  lemma EntrySlice(c: seq<byte>, k: nat)
    requires ENTRY * k + ENTRY <= |c|
    ensures k < Count(c)
    ensures var de := c[ENTRY * k..ENTRY * k + ENTRY]; Inum(c, k) == Get16(de, 0) && Name(c, k) == de[2..]
  {
  }

  lemma HitIff(c: seq<byte>, name: seq<byte>, k: nat, i: u16, n: seq<byte>)
    requires k < Count(c) && i == Inum(c, k) && n == Name(c, k)
    ensures Hit(c, name, k) <==> i != 0 && NameEq(name, n)
  {
    NameEqIff(name, n);
  }

  // Where a scan for name stands: at entry k, panicked inside a torn one, or at a match.
  ghost predicate Scanned(c: seq<byte>, name: seq<byte>, k: nat, panicked: bool, inum: u16) {
    && NoHit(c, name, k)
    && (if panicked then k == Count(c) && |c| % ENTRY != 0 && inum == 0 else k <= Count(c))
    && (inum != 0 ==> Hit(c, name, k) && inum == Inum(c, k))
  }

  lemma ScanDone(c: seq<byte>, name: seq<byte>, k: nat, panicked: bool, inum: u16)
    requires Scanned(c, name, k, panicked, inum) && (inum != 0 || panicked || ENTRY * k >= |c|)
    ensures panicked <==> |c| % ENTRY != 0 && Find(c, name) == 0
    ensures inum == Find(c, name)
  {
    LookupSkips(c, name, k);
  }

  // One round of dirlookup's loop.
  method ScanEntry(fs: FileSystem, dp: Inode, name: seq<byte>, k: nat, ghost own: map<nat, Slot>)
    returns (panicked: bool, inum: u16, k2: nat)
    requires fs.Open(dp, dp.size, own) && dp.typ == T_DIR && ENTRY * k < dp.size && dp.size <= MAXBYTES
    requires Scanned(Dir(fs, dp), name, k, false, 0)
    modifies fs.disk, fs`logged, dp`addrs
    ensures fs.Unchanged(dp) && fs.Open(dp, dp.size, own)
    ensures Scanned(Dir(fs, dp), name, k2, panicked, inum) && (inum == 0 && !panicked ==> k2 == k + 1)
  {
    hide Sound, Inum, Name, Proper;
    var n;
    k2 := k;
    panicked, inum, n := ReadEntry(fs, dp, k, own);
    DirSize(fs, dp, own);
    if !panicked {
      HitIff(Dir(fs, dp), name, k, inum, n);
      if inum == 0 || !NameEq(name, n) {
        inum, k2 := 0, k + 1;
      }
    } else {
      inum := 0;
    }
  }

  /** The first entry with that name, or 0. It panics on a file that is no directory, or if it comes to
      a torn last entry without having found the name. */
  method Dirlookup(fs: FileSystem, dp: Inode, name: seq<byte>, ghost own: map<nat, Slot>)
    returns (panicked: bool, inum: u16, k: nat)
    requires fs.Open(dp, dp.size, own)
    modifies fs.disk, fs`logged, dp`addrs
    ensures fs.Unchanged(dp) && fs.Open(dp, dp.size, own) && dp.size <= MAXBYTES
    ensures panicked <==> dp.typ != T_DIR || (dp.size % ENTRY != 0 && Find(Dir(fs, dp), name) == 0)
    ensures !panicked ==> inum == Find(Dir(fs, dp), name)
    ensures !panicked && inum != 0 ==> Hit(Dir(fs, dp), name, k) && NoHit(Dir(fs, dp), name, k) && inum == Inum(Dir(fs, dp), k)
  {
    hide Sound, Inum, Name, Proper, Find;
    DirSize(fs, dp, own);
    ghost var c := Dir(fs, dp);
    panicked, inum, k := dp.typ != T_DIR, 0, 0;
    if !panicked {
      while ENTRY * k < dp.size && !panicked && inum == 0
        invariant fs.Unchanged(dp) && fs.Open(dp, dp.size, own) && Dir(fs, dp) == c
        invariant Scanned(c, name, k, panicked, inum)
        decreases dp.size - ENTRY * k, inum == 0, !panicked
      {
        panicked, inum, k := ScanEntry(fs, dp, name, k, own);
      }
      ScanDone(c, name, k, panicked, inum);
    }
  }

  // The first free entry, or the end of the directory.
  ghost predicate FirstFree(c: seq<byte>, k: nat) {
    k <= Count(c) && (forall j: nat | j < k :: Inum(c, j) != 0) && (k < Count(c) ==> Inum(c, k) == 0)
  }

  method FindFree(fs: FileSystem, dp: Inode, ghost own: map<nat, Slot>) returns (panicked: bool, k: nat)
    requires fs.Open(dp, dp.size, own) && dp.typ == T_DIR
    modifies fs.disk, fs`logged, dp`addrs
    ensures fs.Unchanged(dp) && fs.Open(dp, dp.size, own) && dp.size <= MAXBYTES
    ensures FirstFree(Dir(fs, dp), k)
    ensures var c := Dir(fs, dp);
            k <= Count(c) && (forall j: nat | j < k :: Inum(c, j) != 0) && (k < Count(c) ==> Inum(c, k) == 0)
    ensures panicked <==> dp.size % ENTRY != 0 && k == Count(Dir(fs, dp))
  {
    hide Sound, Inum, Name;
    DirSize(fs, dp, own);
    ghost var c := Dir(fs, dp);
    panicked, k := false, 0;
    var found := false;
    while ENTRY * k < dp.size && !found && !panicked
      invariant fs.Unchanged(dp) && fs.Open(dp, dp.size, own) && Dir(fs, dp) == c
      invariant panicked ==> k == Count(c) && dp.size % ENTRY != 0 && !found
      invariant k <= Count(c) && (forall j: nat | j < k :: Inum(c, j) != 0) && (found ==> k < Count(c) && Inum(c, k) == 0)
      decreases dp.size - ENTRY * k, !found, !panicked
    {
      var i, n;
      panicked, i, n := ReadEntry(fs, dp, k, own);
      if !panicked {
        if i == 0 {
          found := true;
        } else {
          k := k + 1;
        }
      }
    }
  }

  // The most blocks dirlink logs: the entry's, the indirect one, the inode's, and up to two of the bitmap.
  function LinkShare(sb: Super): nat
    requires sb.nblocks <= sb.size && sb.bmapstart <= Meta(sb)
  {
    3 + Min(Meta(sb) - sb.bmapstart, 2)
  }

  // An entry lies in one block.
  lemma OneBlock(maps: nat, k: nat)
    ensures LogBound(maps, ENTRY * k, ENTRY) <= 3 + Min(maps, 2)
  {
    assert ENTRY * k % BSIZE + ENTRY <= BSIZE;
  }

  // Why dirlink panics, entry k being the first free one: it is no directory, or there is no way to put
  // the new name there.
  ghost predicate LinkPanics(typ: u16, c: seq<byte>, name: seq<byte>, k: nat, addrs: seq<u32>, room: nat)
    requires |addrs| == NDIRECT + 1
  {
    typ != T_DIR ||
    (Find(c, name) == 0 &&
     (|c| % ENTRY != 0 || ENTRY * k + ENTRY > MAXBYTES || room < Wanted(addrs, |c|, ENTRY * k + ENTRY)))
  }

  /** Adds a name that is not there yet, in the first free entry or behind the last: the directory's
      bytes become those with that entry, and no other file's bytes change. It answers -1, changing
      nothing, exactly if the name is there; and it panics exactly if LinkPanics says so. */
  method Dirlink(fs: FileSystem, dp: Inode, name: seq<byte>, inum: u32, ghost own: map<nat, Slot>)
    returns (panicked: bool, r: int, ghost k: nat, ghost own2: map<nat, Slot>, ghost touched: set<nat>)
    requires fs.Open(dp, dp.size, own) && fs.V().inodes[dp.inum] == dp.Din() && dp.size <= MAXBYTES
    modifies fs.disk, fs`logged, dp`addrs, dp`size
    ensures |old(dp.addrs)| == NDIRECT + 1
    ensures var c := old(Dir(fs, dp));
            && (dp.typ == T_DIR && |c| % ENTRY == 0 && Find(c, name) == 0 ==> FirstFree(c, k))
            && (panicked <==> LinkPanics(dp.typ, c, name, k, old(dp.addrs), old(fs.Room())))
    ensures !panicked ==> (r == -1 <==> Find(old(Dir(fs, dp)), name) != 0)
    ensures !panicked && r == -1 ==> fs.Unchanged(dp)
    ensures !panicked && r != -1 ==>
              && r == 0 && |old(Dir(fs, dp))| % ENTRY == 0 && FirstFree(old(Dir(fs, dp)), k)
              && (forall j: nat | j < k :: j < Count(old(Dir(fs, dp))) && Inum(old(Dir(fs, dp)), j) != 0)
              && WroteTo(fs.sb, old(fs.V()), fs.V(), own2, dp.inum, EntryBytes(name, inum % 0x1_0000), ENTRY * k, ENTRY)
              && fs.V().inodes[dp.inum] == dp.Din()
    ensures !panicked ==> fs.logged <= old(fs.logged) + touched && |touched| <= LinkShare(fs.sb) && fs.Journaled()
  {
    hide Sound, Inum, Name, Find, WroteTo, Abs, With, Sized, Wanted, FreeBlocks;
    ghost var c := Dir(fs, dp);
    DirSize(fs, dp, own);
    var found, at;
    own2, k, r, touched := own, 0, -1, {};
    panicked, found, at := Dirlookup(fs, dp, name, own);
    if !panicked && found == 0 {
      var free;
      panicked, free := FindFree(fs, dp, own);
      k := free;
      var n;
      OneBlock(Meta(fs.sb) - fs.sb.bmapstart, free);
      assert ENTRY * free <= dp.size;
      panicked, n, own2, touched := Writei(fs, dp, EntryBytes(name, inum % 0x1_0000), ENTRY * free, own);
      if !panicked {
        panicked, r := n != ENTRY, 0;
      }
    }
  }

  /** So a successful dirlink is an update of the finite map: afterwards the directory answers inum for
      the names equal to this one (unless that is 0), and for all others what it answered before; and its
      names are distinct exactly if they were. */
  lemma DirlinkIsUpdate(sb: Super, v0: Vol, v: Vol, own: map<nat, Slot>, i: nat, k: nat, name: seq<byte>, inum: u16, other: seq<byte>)
    requires WroteTo(sb, v0, v, own, i, EntryBytes(name, inum), ENTRY * k, ENTRY) && v0.inodes[i].size <= MAXBYTES
    requires var c := Contents(v0, i);
             |c| % ENTRY == 0 && FirstFree(c, k) && Find(c, name) == 0
    ensures v.inodes[i].size <= MAXBYTES
    ensures var c, d := Contents(v0, i), Contents(v, i);
            && (Distinct(d) <==> Distinct(c))
            && Find(d, other) == if inum != 0 && NameEq(other, name) then inum else Find(c, other)
  {
    var c := Contents(v0, i);
    SplicedFile(sb, v0, v, own, i, EntryBytes(name, inum), ENTRY * k);
    LinkIsUpdate(c, k, name, inum, other);
  }
}
