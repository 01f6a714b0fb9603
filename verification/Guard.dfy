/** The page exec leaves below the stack (kern/exec.c): uvm_clear takes it from the user, and copyout then
    never writes it. */
module Guard {
  import opened Bits
  import opened Bytes
  import opened Limits
  import opened Frames
  import opened PageTable
  import opened Vm
  import opened Space
  import opened Copy

  // The entry without PTE_USER, bit 6.
  function Barred(e: u64): u64 { e - 64 * (e / 64 % 2) }

  lemma BarredEntry(e: u64)
    ensures Clear(e, 6) == Barred(e) && Barred(e) % 2 == e % 2 && PteAddr(Barred(e)) == PteAddr(e) && Barred(e) / 64 % 2 == 0
  {
    Clear6(e);
    hide Clear;
    var q, p := e / PGSIZE, e % PGSIZE;
    var high, b, low := p / 128, p / 64 % 2, p % 64;
    assert e == PGSIZE * q + p && high < 32;
    Low(p);
    Sixth(32 * q + high, b, low, e);
    Sixth(32 * q + high, 0, low, e - 64 * b);
    Parity(2048 * q + 64 * high + 32 * b + low / 2, low % 2, e);
    Parity(2048 * q + 64 * high + low / 2, low % 2, e - 64 * b);
    Page(q, 128 * high + low, e - 64 * b);
  }

  lemma Low(p: nat)
    ensures p == 128 * (p / 128) + 64 * (p / 64 % 2) + p % 64
  {
    assert p / 64 == 2 * (p / 128) + p / 64 % 2;
  }

  lemma Sixth(n: nat, b: nat, low: nat, x: nat)
    requires b < 2 && low < 64 && x == 128 * n + 64 * b + low
    ensures x / 64 % 2 == b
  {
    assert x / 64 == 2 * n + b;
    Parity(n, b, x / 64);
  }

  lemma Page(q: nat, p: nat, x: nat)
    requires p < PGSIZE && x == PGSIZE * q + p
    ensures x % PGSIZE == p
  {
    assert PGSIZE == 4096;
  }

  // One entry of the flat map lost its user bit; the pages stay whose they are.
  lemma BarredOk(end: u64, r: Ram, root: nat, sp: Space, k: nat)
    requires RamOk(end, r) && SpaceOk(end, r, root, sp) && On(3, k) in sp.t.tabs && sp.t.tabs[On(3, k)] < NFRAMES
    ensures var q := Leafed(r, sp.t, k, Barred(Look(r, sp.t, k)));
            && RamOk(end, q) && SpaceOk(end, q, root, sp)
            && (forall j: nat ::
                  var e := Look(r, sp.t, j);
                  Look(q, sp.t, j) == if j == k then e - 64 * (e / 64 % 2) else e)
            && (forall f | f in sp.key :: f < NFRAMES && q.m[f] == r.m[f])
  {
    var e := Look(r, sp.t, k);
    var q := Leafed(r, sp.t, k, Barred(e));
    BarredEntry(e);
    LeafedOk(end, r, root, sp.t, k, Barred(e));
    assert NodeOk(end, r, sp.t, On(3, k));
    forall j | j in sp.pg
      ensures PageOk(end, q, sp, j)
    {
      assert PageOk(end, r, sp, j);
    }
    forall f | f in sp.key
      ensures f < NFRAMES && q.m[f] == r.m[f]
    {
      assert PageOk(end, r, sp, sp.key[f]);
    }
  }

  /** uvm_clear: the page's entry loses bit 6, and nothing else changes; it panics exactly if there is no
      table for the address. */
  method UvmClear(mc: Machine, pgdir: u64, va: u64, ghost root: nat, ghost sp: Space) returns (panicked: bool)
    requires mc.Valid() && SpaceOk(mc.end, mc.R(), root, sp) && root < NFRAMES && pgdir == Pointer(root)
    modifies mc, mc.frames
    ensures mc.Valid() && SpaceOk(mc.end, mc.R(), root, sp) && mc.free == old(mc.free)
    ensures panicked <==> !(va < 0x1_0000_0000_0000 || va >= 0xFFFF_0000_0000_0000) || On(3, Key(va)) !in sp.t.tabs
    ensures panicked ==> mc.R() == old(mc.R())
    ensures !panicked ==>
              forall k: nat ::
                var e := Look(old(mc.R()), sp.t, k);
                Look(mc.R(), sp.t, k) == if k == Key(va) then e - 64 * (e / 64 % 2) else e
    ensures forall f | f in sp.key :: f < NFRAMES && mc.frames[f] == old(mc.frames[f])
  {
    hide Clear, Barred, Key, Prefix, NodeOk, EntryOk, Threaded, NoDup, PageOk;
    var pte;
    ghost var u, took;
    ghost var r, k := mc.R(), Key(va);
    pte, u, took := PgdirWalk(mc, pgdir, va, false, root, sp.t);
    panicked := pte == 0;
    if !panicked {
      BarredOk(mc.end, r, root, sp, k);
      EntryIsLook(mc.R(), sp.t, k, pte);
      var e := mc.Load(pte, sp.t.tabs[On(3, k)], k % ENTRYSZ);
      BarredEntry(e);
      SetLeaf(mc, pte, Clear(e, 6), sp.t, k);
    } else {
      PagesInMemory(mc.end, r, root, sp);
    }
  }

  /** A page whose entry lacks bit 6 is not written by copyout, and a range that meets it is not copied to
      its end. */
  lemma GuardHolds(end: u64, a: Ram, b: Ram, root: nat, sp: Space, dstva: u64, src: seq<byte>, done: nat, k: nat)
    requires SpaceOk(end, a, root, sp) && CopiedTo(end, a, b, root, sp, dstva, src, done) && InRange(a, sp.t, dstva, done)
    requires k in sp.pg && Look(a, sp.t, k) / 64 % 2 == 0 && dstva + |src| <= TWO64
    ensures forall o: nat | o < PGSIZE :: UserByte(b, sp, k, o) == UserByte(a, sp, k, o)
    ensures (exists va: u64 :: dstva <= va < dstva + |src| && Key(va) == k) ==> done < |src|
  {
    AllAllowed(end, a, root, sp, dstva, done);
    forall o: nat | o < PGSIZE
      ensures UserByte(b, sp, k, o) == UserByte(a, sp, k, o)
    {
      var va := AddrOf(dstva, k, o);
      if dstva <= va < dstva + done {
        assert Allowed(a, sp.t, va);
        AddrKey(dstva, k, o);
      }
    }
    if va: u64 :| dstva <= va < dstva + |src| && Key(va) == k {
      assert done == |src| ==> Allowed(a, sp.t, va);
    }
  }

  lemma AddrKey(dstva: u64, k: nat, o: nat)
    requires k < KEYS && o < PGSIZE
    ensures AddrOf(dstva, k, o) < TWO64 && Key(AddrOf(dstva, k, o)) == k
  {
    assert AddrOf(dstva, k, o) == (dstva / TOP * KEYS + k) * PGSIZE + o;
  }

  /** Pages that map_region has mapped with permissions lacking bit 6 are such pages; with it they are
      the user's. */
  lemma MappedGuard(end: u64, a: Ram, t: Tree, b: Ram, u: Tree, root: nat, took: seq<nat>, va: u64, pa: u64, perm: nat, n: nat, k: nat)
    requires perm < PGSIZE && va + n * PGSIZE <= TOP && Mapped(end, a, t, b, u, root, took, va, pa, perm, n)
    requires Key(va) <= k < Key(va) + n
    ensures Look(b, u, k) % 2 == 1 && Look(b, u, k) / 64 % 2 == perm / 64 % 2
  {
    MappedIs(Look(a, t, k), k, va, pa, perm, n);
    LeafAt(Step(pa, k - Key(va)), perm);
  }
}
