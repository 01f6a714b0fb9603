/** A directory is a finite map from names to inode numbers (kern/fs.c). */
module Directory {
  import opened Bytes
  import opened FsFile

  const DIRSIZ := 14
  const ENTRY := 16

  // ---------- names ----------

  // A C string ends at its first NUL; the end of the sequence counts as one.
  function At(s: seq<byte>, k: nat): byte { if k < |s| then s[k] else 0 }

  // strncmp(s, t, n) == 0 from position k on
  predicate SameFrom(s: seq<byte>, t: seq<byte>, k: nat, n: nat)
    requires k <= n
    decreases n - k
  {
    if k == n then true
    else if At(s, k) == 0 || At(s, k) != At(t, k) then At(s, k) == At(t, k)
    else SameFrom(s, t, k + 1, n)
  }

  predicate NameEq(s: seq<byte>, t: seq<byte>) { SameFrom(s, t, 0, DIRSIZ) }

  // The name proper: at most 14 bytes, up to the first NUL.
  function Cut(s: seq<byte>, k: nat, n: nat): seq<byte>
    requires k <= n
    decreases n - k
  {
    if k == n || At(s, k) == 0 then [] else [At(s, k)] + Cut(s, k + 1, n)
  }

  function Proper(s: seq<byte>): seq<byte> { Cut(s, 0, DIRSIZ) }

  lemma {:induction false} SameCut(s: seq<byte>, t: seq<byte>, k: nat, n: nat)
    requires k <= n
    ensures SameFrom(s, t, k, n) <==> Cut(s, k, n) == Cut(t, k, n)
    decreases n - k
  {
    if k < n && At(s, k) != 0 && At(s, k) == At(t, k) {
      SameCut(s, t, k + 1, n);
      assert Cut(s, k, n)[1..] == Cut(s, k + 1, n) && Cut(t, k, n)[1..] == Cut(t, k + 1, n);
    } else if k < n && At(s, k) != 0 && At(t, k) != 0 {
      assert Cut(s, k, n)[0] != Cut(t, k, n)[0];
    }
  }

  /** namecmp identifies exactly the names with the same proper part. */
  lemma NameEqIff(s: seq<byte>, t: seq<byte>)
    ensures NameEq(s, t) <==> Proper(s) == Proper(t)
  {
    SameCut(s, t, 0, DIRSIZ);
  }

  // strncpy(name, s, 14)
  function Padded(s: seq<byte>): (p: seq<byte>)
    ensures |p| == DIRSIZ
  {
    seq(DIRSIZ, k requires 0 <= k < DIRSIZ => if NulBefore(s, k) then 0 else At(s, k))
  }

  predicate NulBefore(s: seq<byte>, k: nat) {
    exists j: nat | j < k :: At(s, j) == 0
  }

  lemma {:induction false} PaddedCut(s: seq<byte>, k: nat)
    requires k <= DIRSIZ && !NulBefore(s, k)
    ensures Cut(Padded(s), k, DIRSIZ) == Cut(s, k, DIRSIZ)
    decreases DIRSIZ - k
  {
    if k < DIRSIZ && At(s, k) != 0 {
      PaddedCut(s, k + 1);
    }
  }

  // ---------- entries ----------

  function Count(c: seq<byte>): nat { |c| / ENTRY }

  function Inum(c: seq<byte>, k: nat): u16
    requires k < Count(c)
  {
    Get16(c, ENTRY * k)
  }

  function Name(c: seq<byte>, k: nat): seq<byte>
    requires k < Count(c)
  {
    c[ENTRY * k + 2..ENTRY * k + ENTRY]
  }

  // Entry k is in use and has that name.
  predicate Hit(c: seq<byte>, name: seq<byte>, k: nat) {
    k < Count(c) && Inum(c, k) != 0 && Proper(Name(c, k)) == Proper(name)
  }

  // The entries before n.
  predicate NoHit(c: seq<byte>, name: seq<byte>, n: nat) {
    forall k: nat | k < n :: !Hit(c, name, k)
  }

  // No name twice.
  predicate Distinct(c: seq<byte>) {
    forall j: nat, k: nat | j < k < Count(c) && Inum(c, j) != 0 && Inum(c, k) != 0 :: Proper(Name(c, j)) != Proper(Name(c, k))
  }

  // What the directory says of a name: the inode number of its first entry, 0 if there is none.
  function Lookup(c: seq<byte>, name: seq<byte>, n: nat): u16
    requires n <= Count(c)
    decreases Count(c) - n
  {
    if n == Count(c) then 0 else if Hit(c, name, n) then Inum(c, n) else Lookup(c, name, n + 1)
  }

  function Find(c: seq<byte>, name: seq<byte>): u16 { Lookup(c, name, 0) }

  lemma {:induction false} LookupSkips(c: seq<byte>, name: seq<byte>, n: nat)
    requires n <= Count(c) && NoHit(c, name, n)
    ensures Find(c, name) == Lookup(c, name, n)
    decreases n
  {
    if n > 0 {
      LookupSkips(c, name, n - 1);
    }
  }

  lemma {:induction false} LookupHit(c: seq<byte>, name: seq<byte>, n: nat, k: nat)
    requires n <= k && Hit(c, name, k)
    ensures Lookup(c, name, n) != 0
    decreases k - n
  {
    hide Count, Inum, Name, Proper;
    if n < k {
      LookupHit(c, name, n + 1, k);
    }
  }

  lemma FindNone(c: seq<byte>, name: seq<byte>)
    requires Find(c, name) == 0
    ensures NoHit(c, name, Count(c))
  {
    forall k: nat | k < Count(c)
      ensures !Hit(c, name, k)
    {
      if Hit(c, name, k) {
        LookupHit(c, name, 0, k);
      }
    }
  }

  // The directory with entry k written: the bytes of inum and the padded name.
  function EntryBytes(name: seq<byte>, inum: u16): (e: seq<byte>)
    ensures |e| == ENTRY
  {
    [inum % 0x100, inum / 0x100] + Padded(name)
  }

  function WithEntry(c: seq<byte>, k: nat, name: seq<byte>, inum: u16): seq<byte>
    requires ENTRY * k <= |c|
  {
    Spliced(c, ENTRY * k, EntryBytes(name, inum))
  }

  lemma SameEntry(c: seq<byte>, d: seq<byte>, j: nat)
    requires ENTRY * j + ENTRY <= |c| && ENTRY * j + ENTRY <= |d|
    requires forall o: nat | ENTRY * j <= o < ENTRY * j + ENTRY :: d[o] == c[o]
    ensures j < Count(c) && j < Count(d) && Inum(d, j) == Inum(c, j) && Name(d, j) == Name(c, j)
  {
  }

  lemma EntryAt(c: seq<byte>, k: nat, name: seq<byte>, inum: u16)
    requires |c| % ENTRY == 0 && k <= Count(c)
    ensures ENTRY * k <= |c|
    ensures var d := WithEntry(c, k, name, inum);
            && Count(d) == (if k == Count(c) then k + 1 else Count(c)) && |d| % ENTRY == 0
            && Inum(d, k) == inum && Proper(Name(d, k)) == Proper(name)
            && forall j: nat | j < Count(c) && j != k :: Inum(d, j) == Inum(c, j) && Name(d, j) == Name(c, j)
  {
    var d := WithEntry(c, k, name, inum);
    SplicedAt(c, ENTRY * k, EntryBytes(name, inum), 0);
    PaddedCut(name, 0);
    assert Name(d, k) == Padded(name);
    forall j: nat | j < Count(c) && j != k
      ensures Inum(d, j) == Inum(c, j) && Name(d, j) == Name(c, j)
    {
      assert ENTRY * j + ENTRY <= ENTRY * k || ENTRY * k + ENTRY <= ENTRY * j;
      SameEntry(c, d, j);
    }
  }

  // d is c with entry k, free before or new, now naming inum (or, if that is 0, still free).
  ghost predicate Linked(c: seq<byte>, d: seq<byte>, k: nat, name: seq<byte>, inum: u16) {
    && k <= Count(c) && (k < Count(c) ==> Inum(c, k) == 0)
    && Count(d) == (if k == Count(c) then k + 1 else Count(c))
    && Inum(d, k) == inum && Proper(Name(d, k)) == Proper(name)
    && forall j: nat | j < Count(c) && j != k :: Inum(d, j) == Inum(c, j) && Name(d, j) == Name(c, j)
  }

  lemma LinkedDistinct(c: seq<byte>, d: seq<byte>, k: nat, name: seq<byte>, inum: u16)
    requires Linked(c, d, k, name, inum) && NoHit(c, name, Count(c))
    ensures Distinct(d) <==> Distinct(c)
  {
    if Distinct(c) {
      forall j: nat, l: nat | j < l < Count(d) && Inum(d, j) != 0 && Inum(d, l) != 0
        ensures Proper(Name(d, j)) != Proper(Name(d, l))
      {
        if j == k {
          assert !Hit(c, name, l);
        } else if l == k {
          assert !Hit(c, name, j);
        }
      }
    }
    if Distinct(d) {
      forall j: nat, l: nat | j < l < Count(c) && Inum(c, j) != 0 && Inum(c, l) != 0
        ensures Proper(Name(c, j)) != Proper(Name(c, l))
      {
        assert Proper(Name(d, j)) != Proper(Name(d, l));
      }
    }
  }

  lemma LinkedFind(c: seq<byte>, d: seq<byte>, k: nat, name: seq<byte>, inum: u16, other: seq<byte>)
    requires Linked(c, d, k, name, inum) && inum != 0 && NoHit(c, name, Count(c)) && Proper(other) == Proper(name)
    ensures Find(d, other) == inum
  {
    forall j: nat | j < k
      ensures !Hit(d, other, j)
    {
      assert !Hit(c, name, j);
    }
    LookupSkips(d, other, k);
  }

  /** A link into a free entry, or behind the last: that name, and every name equal to it under
      namecmp, is found now; all other names as before; and names stay distinct. */
  lemma LinkIsUpdate(c: seq<byte>, k: nat, name: seq<byte>, inum: u16, other: seq<byte>)
    requires |c| % ENTRY == 0 && k <= Count(c) && (k < Count(c) ==> Inum(c, k) == 0)
    requires Find(c, name) == 0
    ensures ENTRY * k <= |c|
    ensures var d := WithEntry(c, k, name, inum);
            && (Distinct(d) <==> Distinct(c))
            && Find(d, other) == if inum != 0 && NameEq(other, name) then inum else Find(c, other)
  {
    EntryAt(c, k, name, inum);
    var d := WithEntry(c, k, name, inum);
    assert Linked(c, d, k, name, inum);
    NameEqIff(other, name);
    FindNone(c, name);
    LinkedDistinct(c, d, k, name, inum);
    if inum != 0 && NameEq(other, name) {
      LinkedFind(c, d, k, name, inum, other);
    } else {
      SameLookup(c, d, other, k, 0);
    }
  }

  lemma {:induction false} SameLookup(c: seq<byte>, d: seq<byte>, other: seq<byte>, k: nat, n: nat)
    requires k <= Count(c) && (k < Count(c) ==> Inum(c, k) == 0) && n <= Count(c)
    requires Count(d) == (if k == Count(c) then k + 1 else Count(c))
    requires k < Count(d) ==> !Hit(d, other, k)
    requires forall j: nat | j < Count(c) && j != k :: Inum(d, j) == Inum(c, j) && Name(d, j) == Name(c, j)
    ensures Lookup(d, other, n) == Lookup(c, other, n)
    decreases Count(c) - n
  {
    if n < Count(c) {
      SameLookup(c, d, other, k, n + 1);
    }
  }
}
