/** Copying to user memory through the page table (copyout in kern/vm.c), byte by byte. */
module Copy {
  import opened Bits
  import opened Bytes
  import opened Limits
  import opened Frames
  import opened PageTable
  import opened Vm
  import opened Space

  // ---------- the bytes of a page ----------

  // Byte i of a little-endian number.
  function Digit(w: nat, i: nat): byte {
    if i == 0 then w % 0x100 else Digit(w / 0x100, i - 1)
  }

  function FromDigits(bs: seq<byte>): nat {
    if bs == [] then 0 else bs[0] as nat + 0x100 * FromDigits(bs[1..])
  }

  function Pow(n: nat): nat {
    if n == 0 then 1 else 0x100 * Pow(n - 1)
  }

  lemma {:induction false} DigitsFit(bs: seq<byte>)
    ensures FromDigits(bs) < Pow(|bs|)
  {
    if bs != [] {
      DigitsFit(bs[1..]);
    }
  }

  lemma {:induction false} DigitOf(bs: seq<byte>, i: nat)
    requires i < |bs|
    ensures Digit(FromDigits(bs), i) == bs[i]
  {
    var rest := FromDigits(bs[1..]);
    assert FromDigits(bs) % 0x100 == bs[0] && FromDigits(bs) / 0x100 == rest;
    if i > 0 {
      DigitOf(bs[1..], i - 1);
    }
  }

  function WordOf(bs: seq<byte>): (w: u64)
    requires |bs| == 8
    ensures forall i: nat | i < 8 :: Digit(w, i) == bs[i]
  {
    DigitsFit(bs);
    assert Pow(8) == TWO64 by { assert Pow(2) == 0x1_0000 && Pow(4) == 0x1_0000_0000 && Pow(6) == 0x1_0000_0000_0000; }
    assert forall i: nat | i < 8 :: Digit(FromDigits(bs), i) == bs[i] by {
      forall i: nat | i < 8
        ensures Digit(FromDigits(bs), i) == bs[i]
      {
        DigitOf(bs, i);
      }
    }
    FromDigits(bs)
  }

  function PageByte(p: Page, j: nat): byte
    requires j < PGSIZE
  {
    Digit(p[j / 8], j % 8)
  }

  function ToBytes(p: Page): (bs: seq<byte>)
    ensures |bs| == PGSIZE && forall j: nat | j < PGSIZE :: bs[j] == PageByte(p, j)
  {
    seq(PGSIZE, j requires 0 <= j < PGSIZE => PageByte(p, j))
  }

  function FromBytes(bs: seq<byte>): (p: Page)
    requires |bs| == PGSIZE
    ensures forall j: nat | j < PGSIZE :: PageByte(p, j) == bs[j]
  {
    var p: Page := seq(ENTRYSZ, w requires 0 <= w < ENTRYSZ => WordOf(bs[8 * w..8 * w + 8]));
    assert forall j: nat | j < PGSIZE :: PageByte(p, j) == bs[j] by {
      forall j: nat | j < PGSIZE
        ensures PageByte(p, j) == bs[j]
      {
        var w := j / 8;
        assert Digit(WordOf(bs[8 * w..8 * w + 8]), j % 8) == bs[8 * w..8 * w + 8][j % 8];
      }
    }
    p
  }

  // The page with src copied over position o.
  function PutBytes(p: Page, o: nat, src: seq<byte>): (q: Page)
    requires o + |src| <= PGSIZE
    ensures forall j: nat | j < PGSIZE :: PageByte(q, j) == if o <= j < o + |src| then src[j - o] else PageByte(p, j)
  {
    FromBytes(Splice(ToBytes(p), o, src))
  }

  // ---------- writing a user's page ----------

  ghost function Poked(r: Ram, f: nat, p: Page): Ram
    requires f < NFRAMES
  {
    r.(m := r.m[f := p])
  }

  // A page of data is neither free nor a table: writing it leaves the free list, the tree, the flat
  // map and all other pages alone.
  lemma PokedOk(end: u64, r: Ram, root: nat, sp: Space, k: nat, p: Page)
    requires RamOk(end, r) && SpaceOk(end, r, root, sp) && k in sp.pg && sp.pg[k] < NFRAMES
    ensures RamOk(end, Poked(r, sp.pg[k], p)) && SpaceOk(end, Poked(r, sp.pg[k], p), root, sp)
    ensures forall j: nat :: Look(Poked(r, sp.pg[k], p), sp.t, j) == Look(r, sp.t, j)
    ensures sp.pg[k] in sp.key && forall j | j in sp.pg && j != k :: sp.pg[j] != sp.pg[k]
  {
    var f := sp.pg[k];
    var q := Poked(r, f, p);
    assert PageOk(end, r, sp, k);
    ThreadedKeeps(r.m, q.m, r.head, r.free);
    forall n | n in sp.t.tabs
      ensures NodeOk(end, q, sp.t, n) && sp.t.tabs[n] != f
    {
      assert NodeOk(end, r, sp.t, n);
    }
    forall n, i: nat | n in sp.t.tabs && n.level < 3 && i < ENTRYSZ
      ensures EntryOk(q, sp.t, n, i)
    {
      assert NodeOk(end, r, sp.t, n) && EntryOk(r, sp.t, n, i);
    }
    forall j: nat
      ensures Look(q, sp.t, j) == Look(r, sp.t, j)
    {
    }
    forall j | j in sp.pg
      ensures PageOk(end, q, sp, j) && (j != k ==> sp.pg[j] != f)
    {
      assert PageOk(end, r, sp, j);
    }
  }

  // memmove into frame f
  method Memmove(mc: Machine, to: u64, src: seq<byte>, ghost f: nat, ghost o: nat)
    requires mc.frames.Length == NFRAMES && f < NFRAMES && o + |src| <= PGSIZE && o < PGSIZE && to == Pointer(f) + o
    modifies mc.frames
    ensures mc.R() == Poked(old(mc.R()), f, PutBytes(old(mc.frames[f]), o, src))
  {
    var k := V2P(to) / PGSIZE;
    mc.frames[k] := PutBytes(mc.frames[k], V2P(to) % PGSIZE, src);
  }

  // ---------- what copyout does to the user's bytes ----------

  // Byte o of page number k.
  ghost function UserByte(r: Ram, sp: Space, k: nat, o: nat): byte {
    if k in sp.pg && sp.pg[k] < NFRAMES && o < PGSIZE then PageByte(r.m[sp.pg[k]], o) else 0
  }

  // Its virtual address, in the half of the address space that dstva is in.
  function AddrOf(dstva: u64, k: nat, o: nat): nat {
    dstva / TOP * TOP + k * PGSIZE + o
  }

  ghost function NewByte(a: Ram, sp: Space, dstva: u64, src: seq<byte>, done: nat, k: nat, o: nat): byte
    requires done <= |src|
  {
    var va := AddrOf(dstva, k, o);
    if dstva <= va < dstva + done then src[va - dstva] else UserByte(a, sp, k, o)
  }

  // The first done bytes of src have been copied to dstva, and nothing else has changed: not the
  // user's other bytes, nor the page table, nor the free list, nor any other frame.
  ghost predicate CopiedTo(end: u64, a: Ram, b: Ram, root: nat, sp: Space, dstva: u64, src: seq<byte>, done: nat) {
    && done <= |src| && RamOk(end, b) && SpaceOk(end, b, root, sp)
    && b.free == a.free && b.head == a.head
    && (forall k: nat :: Look(b, sp.t, k) == Look(a, sp.t, k))
    && (forall f: nat | f < NFRAMES && f !in sp.key :: b.m[f] == a.m[f])
    && (forall k: nat, o: nat {:trigger UserByte(b, sp, k, o)} | k in sp.pg && o < PGSIZE ::
          UserByte(b, sp, k, o) == NewByte(a, sp, dstva, src, done, k, o))
  }

  lemma SameHalf(dstva: u64, va: u64)
    requires va / TOP == dstva / TOP
    ensures forall o: nat :: AddrOf(dstva, Key(va), o) == va - va % PGSIZE + o
    ensures forall k: nat, o: nat | o < PGSIZE && AddrOf(dstva, k, o) / PGSIZE == va / PGSIZE :: k == Key(va)
  {
    assert TOP == KEYS * PGSIZE;
    assert va / PGSIZE / KEYS == va / TOP;
    assert va / PGSIZE == va / TOP * KEYS + Key(va);
    forall k: nat, o: nat | o < PGSIZE && AddrOf(dstva, k, o) / PGSIZE == va / PGSIZE
      ensures k == Key(va)
    {
      assert AddrOf(dstva, k, o) == (va / TOP * KEYS + k) * PGSIZE + o;
    }
  }

  lemma ChunkByte(a: Ram, b: Ram, sp: Space, dstva: u64, src: seq<byte>, done: nat, va: u64, n: nat, k: nat, o: nat)
    requires va == dstva + done && va / TOP == dstva / TOP && done + n <= |src| && va % PGSIZE + n <= PGSIZE
    requires Key(va) in sp.pg && sp.pg[Key(va)] < NFRAMES && k in sp.pg && o < PGSIZE
    requires k != Key(va) ==> sp.pg[k] != sp.pg[Key(va)]
    requires UserByte(b, sp, k, o) == NewByte(a, sp, dstva, src, done, k, o)
    ensures var f := sp.pg[Key(va)];
            UserByte(Poked(b, f, PutBytes(b.m[f], va % PGSIZE, src[done..done + n])), sp, k, o)
            == NewByte(a, sp, dstva, src, done + n, k, o)
  {
    SameHalf(dstva, va);
    var at := AddrOf(dstva, k, o);
    ChunkPage(va, n, at);
  }

  lemma SamePage(va: u64, d: nat)
    requires va % PGSIZE + d < PGSIZE
    ensures (va + d) / PGSIZE == va / PGSIZE
  {
  }

  lemma ChunkPage(va: u64, n: nat, x: nat)
    requires va % PGSIZE + n <= PGSIZE
    ensures va <= x < va + n ==> x / PGSIZE == va / PGSIZE
  {
    if va <= x < va + n {
      SamePage(va, x - va);
    }
  }

  lemma CopiedMore(end: u64, a: Ram, b: Ram, root: nat, sp: Space, dstva: u64, src: seq<byte>, done: nat, va: u64, n: nat)
    requires CopiedTo(end, a, b, root, sp, dstva, src, done)
    requires va == dstva + done && va / TOP == dstva / TOP && done + n <= |src| && va % PGSIZE + n <= PGSIZE
    requires Key(va) in sp.pg && sp.pg[Key(va)] < NFRAMES
    ensures var f := sp.pg[Key(va)];
            CopiedTo(end, a, Poked(b, f, PutBytes(b.m[f], va % PGSIZE, src[done..done + n])), root, sp, dstva, src, done + n)
  {
    var f := sp.pg[Key(va)];
    var p := PutBytes(b.m[f], va % PGSIZE, src[done..done + n]);
    var c := Poked(b, f, p);
    PokedOk(end, b, root, sp, Key(va), p);
    forall k: nat, o: nat {:trigger UserByte(c, sp, k, o)} | k in sp.pg && o < PGSIZE
      ensures UserByte(c, sp, k, o) == NewByte(a, sp, dstva, src, done + n, k, o)
    {
      ChunkByte(a, b, sp, dstva, src, done, va, n, k, o);
    }
  }

  lemma CopiedNone(end: u64, a: Ram, root: nat, sp: Space, dstva: u64, src: seq<byte>)
    requires RamOk(end, a) && SpaceOk(end, a, root, sp)
    ensures CopiedTo(end, a, a, root, sp, dstva, src, 0)
  {
  }

  // The page a user address is on, if addr_walk finds it.
  lemma UserFrame(end: u64, r: Ram, root: nat, sp: Space, va: u64)
    requires SpaceOk(end, r, root, sp) && UserPage(r, sp.t, va) != 0
    ensures Canonical(va) && Key(va) in sp.pg && sp.pg[Key(va)] < NFRAMES && UserPage(r, sp.t, va) == Pointer(sp.pg[Key(va)])
  {
    assert PageOk(end, r, sp, Key(va));
  }

  lemma PageOf(va: u64)
    ensures Key(PteAddr(va)) == Key(va) && va - PteAddr(va) == va % PGSIZE && (Canonical(PteAddr(va)) <==> Canonical(va))
    ensures PteAddr(va) / TOP == va / TOP
  {
    assert PteAddr(va) / PGSIZE == va / PGSIZE;
    assert TOP == KEYS * PGSIZE;
    assert va / TOP == va / PGSIZE / KEYS && PteAddr(va) / TOP == PteAddr(va) / PGSIZE / KEYS;
  }

  // The address is in one of the halves, and its entry has PTE_P and PTE_USER.
  ghost predicate Allowed(r: Ram, t: Tree, va: u64) {
    var e := Look(r, t, Key(va));
    (va < 0x1_0000_0000_0000 || va >= 0xFFFF_0000_0000_0000) && e % 2 == 1 && e / 64 % 2 == 1
  }

  lemma AllowedPage(end: u64, r: Ram, root: nat, sp: Space, va: u64)
    requires SpaceOk(end, r, root, sp)
    ensures OnUserPage(r, sp.t, va) <==> Allowed(r, sp.t, va)
  {
    PageOf(va);
    Bit6(Look(r, sp.t, Key(va)));
    if Key(va) in sp.pg {
      assert PageOk(end, r, sp, Key(va));
    }
  }

  // The next page is in the same half: the addresses between the halves are not canonical.
  lemma NextHalf(dstva: u64, va: u64)
    requires va > 0 && (va - 1) / TOP == dstva / TOP && Canonical(dstva) && Canonical(va)
    ensures va / TOP == dstva / TOP
  {
  }

  ghost predicate OnUserPage(r: Ram, t: Tree, va: u64) {
    UserPage(r, t, PteAddr(va)) != 0
  }

  // What the copied range looks like: mapped for the user, and in one half.
  ghost predicate InRange(r: Ram, t: Tree, dstva: u64, done: nat) {
    && dstva + done <= TWO64
    && (done > 0 ==> Canonical(dstva) && (dstva + done - 1) / TOP == dstva / TOP)
    && forall x: u64 | dstva <= x < dstva + done :: OnUserPage(r, t, x)
  }

  lemma InPage(va: u64, x: u64)
    requires va <= x && va % PGSIZE + (x - va) < PGSIZE
    ensures PteAddr(x) == PteAddr(va) && x / TOP == va / TOP
  {
    SamePage(va, x - va);
    PageOf(x);
    PageOf(va);
  }

  lemma InRangeMore(r: Ram, t: Tree, dstva: u64, done: nat, va: u64, n: nat)
    requires InRange(r, t, dstva, done) && va == dstva + done && va / TOP == dstva / TOP && va + n <= TWO64
    requires OnUserPage(r, t, va) && 0 < n && va % PGSIZE + n <= PGSIZE && Canonical(dstva)
    ensures InRange(r, t, dstva, done + n)
  {
    forall x: u64 | dstva <= x < dstva + done + n
      ensures OnUserPage(r, t, x)
    {
      if x >= va {
        InPage(va, x);
      }
    }
    InPage(va, va + n - 1);
  }

  // One round of the loop; n is 0 if there is no such user page.
  method CopyRound(mc: Machine, pgdir: u64, dstva: u64, va: u64, left: seq<byte>, ghost root: nat, ghost sp: Space, ghost a: Ram,
                   ghost src: seq<byte>, ghost done: nat)
    returns (n: nat)
    requires mc.Valid() && root < NFRAMES && pgdir == Pointer(root) && CopiedTo(mc.end, a, mc.R(), root, sp, dstva, src, done)
    requires InRange(a, sp.t, dstva, done) && va == dstva + done && done < |src| && left == src[done..] && dstva + |src| <= TWO64
    modifies mc, mc.frames
    ensures mc.Valid() && done + n <= |src| && CopiedTo(mc.end, a, mc.R(), root, sp, dstva, src, done + n)
    ensures InRange(a, sp.t, dstva, done + n)
    ensures n == 0 ==> !OnUserPage(a, sp.t, va)
    ensures 0 < n < |left| ==> PteAddr(va) + PGSIZE == va + n
  {
    ghost var b := mc.R();
    var va0 := PteAddr(va);
    PageOf(va);
    var pa0 := AddrWalk(mc, pgdir, va0, root, sp.t);
    assert UserPage(b, sp.t, va0) == UserPage(a, sp.t, va0);
    n := 0;
    if pa0 != 0 {
      UserFrame(mc.end, b, root, sp, va0);
      if done > 0 {
        NextHalf(dstva, va);
      }
      n := PGSIZE - (va - va0);
      if n > |left| {
        n := |left|;
      }
      ghost var f := sp.pg[Key(va)];
      CopiedMore(mc.end, a, b, root, sp, dstva, src, done, va, n);
      InRangeMore(a, sp.t, dstva, done, va, n);
      assert left[..n] == src[done..done + n];
      Memmove(mc, pa0 + (va - va0), left[..n], f, va % PGSIZE);
    }
  }

  /** copyout: the bytes arrive where the page table says, up to the first page that is not the user's,
      or to the last of them if there is none; then and only then it answers 0. The user's are the
      pages at canonical addresses whose entry has bit 0, PTE_P, and bit 6, PTE_USER. The table it walks
      and everything else stays as it was. */
  method Copyout(mc: Machine, pgdir: u64, dstva: u64, src: seq<byte>, ghost root: nat, ghost sp: Space)
    returns (err: bool, ghost done: nat)
    requires mc.Valid() && SpaceOk(mc.end, mc.R(), root, sp) && root < NFRAMES && pgdir == Pointer(root)
    requires dstva + |src| <= TWO64
    modifies mc, mc.frames
    ensures mc.Valid() && CopiedTo(mc.end, old(mc.R()), mc.R(), root, sp, dstva, src, done)
    ensures InRange(old(mc.R()), sp.t, dstva, done)
    ensures err <==> done < |src|
    ensures err ==> !OnUserPage(old(mc.R()), sp.t, dstva + done)
    ensures err ==>
              var va := dstva + done;
              var e := Look(old(mc.R()), sp.t, Key(va));
              !(va < 0x1_0000_0000_0000 || va >= 0xFFFF_0000_0000_0000) || e % 2 == 0 || e / 64 % 2 == 0
  {
    hide CopiedTo, InRange, OnUserPage;
    err, done := false, 0;
    ghost var a := mc.R();
    CopiedNone(mc.end, a, root, sp, dstva, src);
    InRangeNone(a, sp.t, dstva);
    var left, va := src, dstva;
    while left != [] && !err
      invariant mc.Valid() && done <= |src| && CopiedTo(mc.end, a, mc.R(), root, sp, dstva, src, done)
      invariant InRange(a, sp.t, dstva, done) && left == src[done..] && (left != [] ==> va == dstva + done)
      invariant err ==> left != [] && !OnUserPage(a, sp.t, va)
      decreases |left|, !err
    {
      var n := CopyRound(mc, pgdir, dstva, va, left, root, sp, a, src, done);
      if n == 0 {
        err := true;
      } else {
        left, done := left[n..], done + n;
        if left != [] {
          va := PteAddr(va) + PGSIZE;
        }
      }
    }
    if err {
      NotAllowed(mc.end, a, root, sp, dstva + done);
    }
  }

  // Every byte copied was on a page of the user's.
  lemma AllAllowed(end: u64, r: Ram, root: nat, sp: Space, dstva: u64, done: nat)
    requires SpaceOk(end, r, root, sp) && InRange(r, sp.t, dstva, done)
    ensures forall va: u64 | dstva <= va < dstva + done ::
              var e := Look(r, sp.t, Key(va));
              (va < 0x1_0000_0000_0000 || va >= 0xFFFF_0000_0000_0000) && e % 2 == 1 && e / 64 % 2 == 1
  {
    forall va: u64 | dstva <= va < dstva + done
      ensures var e := Look(r, sp.t, Key(va));
              (va < 0x1_0000_0000_0000 || va >= 0xFFFF_0000_0000_0000) && e % 2 == 1 && e / 64 % 2 == 1
    {
      assert OnUserPage(r, sp.t, va);
      AllowedPage(end, r, root, sp, va);
    }
  }

  lemma NotAllowed(end: u64, r: Ram, root: nat, sp: Space, va: u64)
    requires SpaceOk(end, r, root, sp) && !OnUserPage(r, sp.t, va)
    ensures var e := Look(r, sp.t, Key(va));
            !(va < 0x1_0000_0000_0000 || va >= 0xFFFF_0000_0000_0000) || e % 2 == 0 || e / 64 % 2 == 0
  {
    AllowedPage(end, r, root, sp, va);
  }

  lemma InRangeNone(r: Ram, t: Tree, dstva: u64)
    ensures InRange(r, t, dstva, 0)
  {
  }

  /** Every byte of the range copied is in the user's page at its virtual address. */
  lemma Arrives(end: u64, a: Ram, b: Ram, root: nat, sp: Space, dstva: u64, src: seq<byte>, done: nat, j: nat)
    requires SpaceOk(end, a, root, sp) && CopiedTo(end, a, b, root, sp, dstva, src, done) && InRange(a, sp.t, dstva, done) && j < done
    ensures var va := dstva + j;
            && Key(va) in sp.pg && sp.pg[Key(va)] < NFRAMES && UserByte(b, sp, Key(va), va % PGSIZE) == src[j]
            && UserPage(b, sp.t, PteAddr(va)) == Pointer(sp.pg[Key(va)])
  {
    var va: u64 := dstva + j;
    PageOf(va);
    assert OnUserPage(a, sp.t, va);
    UserFrame(end, a, root, sp, PteAddr(va));
    assert va / TOP == dstva / TOP;
    SameHalf(dstva, va);
  }
}
