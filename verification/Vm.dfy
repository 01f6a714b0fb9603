/** Walking, mapping and translating through the page table (kern/vm.c). */
module Vm {
  import opened Bits
  import opened Limits
  import opened Sets
  import opened Frames
  import opened PageTable

  // ---------- writing a leaf ----------

  // The entry map_region writes for the kernel address pa.
  function Leaf(pa: u64, perm: nat): u64
    requires perm < PGSIZE
  {
    FlagsBound(perm);
    PageOfKernel(pa);
    V2P(PteAddr(pa)) + Or(perm, LEAFFLAGS)
  }

  lemma FlagsBound(perm: nat)
    requires perm < PGSIZE
    ensures Or(perm, LEAFFLAGS) < PGSIZE && Or(perm, LEAFFLAGS) % 2 == 1
  {
    hide Or;
    assert PGSIZE == Power2(12);
    OrBound(perm, LEAFFLAGS, 12, PGSIZE);
    OrBit(perm, LEAFFLAGS, 0);
  }

  lemma PageOfKernel(pa: u64)
    ensures V2P(PteAddr(pa)) % PGSIZE == 0 && V2P(PteAddr(pa)) + PGSIZE <= TWO64
  {
  }

  /** The entry is valid, its address part is the physical page of pa, and it allows user access
      exactly if perm does. */
  lemma LeafAt(pa: u64, perm: nat)
    requires perm < PGSIZE
    ensures Leaf(pa, perm) % 2 == 1 && PteAddr(Leaf(pa, perm)) == V2P(PteAddr(pa))
    ensures UserEntry(Leaf(pa, perm)) <==> UserEntry(perm)
    ensures Leaf(pa, perm) / 64 % 2 == perm / 64 % 2
  {
    hide Or, Bit;
    FlagsBound(perm);
    PageOfKernel(pa);
    PageSum(V2P(PteAddr(pa)), Or(perm, LEAFFLAGS));
    UserOr(perm);
    Bit6(Leaf(pa, perm));
    Bit6(perm);
  }

  /** The low bits of a leaf entry are those of perm and PTE_P, PTE_TABLE, the memory type (bit 2), PTE_SH
      (bits 8 and 9) and PTE_AF (bit 10). */
  lemma LeafFlags(pa: u64, perm: nat, b: nat)
    requires perm < PGSIZE && b < 12
    ensures Bit(Leaf(pa, perm) % PGSIZE, b) <==> Bit(perm, b) || b in [0, 1, 2, 8, 9, 10]
  {
    hide Or;
    FlagsBound(perm);
    PageOfKernel(pa);
    PageSum(V2P(PteAddr(pa)), Or(perm, LEAFFLAGS));
    OrBit(perm, LEAFFLAGS, b);
    LeafBits(b);
  }

  lemma LeafBits(b: nat)
    requires b < 12
    ensures Bit(LEAFFLAGS, b) <==> b in [0, 1, 2, 8, 9, 10]
  {
    var x: nat := b;
    var rest: nat := 0x707;
    while x > 0
      invariant x <= b && Bit(rest, x) == Bit(LEAFFLAGS, b)
      invariant rest == [0x707, 0x383, 0x1C1, 0xE0, 0x70, 0x38, 0x1C, 0xE, 7, 3, 1, 0][b - x]
    {
      rest, x := rest / 2, x - 1;
    }
  }

  // e & PTE_USER
  predicate UserEntry(e: nat) { Bit(e, 6) }

  lemma UserOr(perm: nat)
    ensures UserEntry(Or(perm, LEAFFLAGS)) <==> UserEntry(perm)
  {
    OrBit(perm, LEAFFLAGS, 6);
    assert Bit(LEAFFLAGS, 6) == Bit(0x383, 5) == Bit(0x1C1, 4) == Bit(0xE0, 3) == Bit(0x70, 2) == Bit(0x38, 1) == Bit(0x1C, 0);
  }

  // Bits below the lowest set bit of big do not see a multiple of it.
  lemma {:induction false} BitSum(q: nat, big: nat, low: nat, b: nat)
    requires big == Power2(b + 1)
    ensures Bit(big * q + low, b) == Bit(low, b)
    decreases b
  {
    var half := Power2(b);
    assert big * q == 2 * (half * q);
    assert (big * q + low) / 2 == half * q + low / 2;
    if b > 0 {
      BitSum(q, half, low / 2, b - 1);
    }
  }

  lemma PageSum(base: nat, low: nat)
    requires base % PGSIZE == 0 && low < PGSIZE
    ensures (base + low) % PGSIZE == low && (base + low) % 2 == low % 2 && (UserEntry(base + low) <==> UserEntry(low))
  {
    assert Power2(7) == 128;
    Multiple(base, low);
    BitSum(32 * (base / PGSIZE), 128, low, 6);
  }

  lemma Parity(half: nat, b: nat, x: nat)
    requires x == 2 * half + b && b < 2
    ensures x % 2 == b
  {
  }

  lemma Multiple(base: nat, low: nat)
    requires base % PGSIZE == 0 && low < PGSIZE
    ensures base == 128 * (32 * (base / PGSIZE)) && (base + low) % PGSIZE == low && (base + low) % 2 == low % 2
  {
    assert PGSIZE == 4096;
    Parity(2048 * (base / PGSIZE) + low / 2, low % 2, base + low);
  }

  ghost function Leafed(r: Ram, t: Tree, k: nat, v: u64): Ram
    requires On(3, k) in t.tabs && t.tabs[On(3, k)] < NFRAMES
  {
    Ram(SetWord(r.m, t.tabs[On(3, k)], k % ENTRYSZ, v), r.head, r.free)
  }

  lemma LeafedEntries(end: u64, r: Ram, root: nat, t: Tree, k: nat, v: u64, n: Node, i: nat)
    requires RamOk(end, r) && TreeOk(end, r, root, t) && On(3, k) in t.tabs && t.tabs[On(3, k)] < NFRAMES
    requires n in t.tabs && n.level < 3 && i < ENTRYSZ && t.tabs[n] < NFRAMES
    ensures EntryOk(Leafed(r, t, k, v), t, n, i)
  {
    assert NodeOk(end, r, t, n) && NodeOk(end, r, t, On(3, k)) && EntryOk(r, t, n, i);
  }

  // Writing one leaf changes the flat map at its key only.
  lemma LeafedOk(end: u64, r: Ram, root: nat, t: Tree, k: nat, v: u64)
    requires RamOk(end, r) && TreeOk(end, r, root, t) && On(3, k) in t.tabs && t.tabs[On(3, k)] < NFRAMES
    ensures var q := Leafed(r, t, k, v);
            && RamOk(end, q) && TreeOk(end, q, root, t)
            && forall j: nat :: Look(q, t, j) == if j == k then v else Look(r, t, j)
  {
    var q := Leafed(r, t, k, v);
    assert NodeOk(end, r, t, On(3, k));
    WriteOk(end, r, t.tabs[On(3, k)], k % ENTRYSZ, v);
    forall n | n in t.tabs
      ensures NodeOk(end, q, t, n)
    {
      assert NodeOk(end, r, t, n);
    }
    forall n, i: nat | n in t.tabs && n.level < 3 && i < ENTRYSZ
      ensures EntryOk(q, t, n, i)
    {
      LeafedEntries(end, r, root, t, k, v, n, i);
    }
    forall j: nat
      ensures Look(q, t, j) == if j == k then v else Look(r, t, j)
    {
      if On(3, j) in t.tabs {
        assert NodeOk(end, r, t, On(3, j));
      }
    }
  }

  // ---------- the walk ----------

  // A page cleared and stored into its parent's entry.
  method Hang(mc: Machine, p: u64, ghost f: nat, pde: u64, ghost t: Tree, ghost n: Node, ghost i: nat)
    requires mc.frames.Length == NFRAMES && f < NFRAMES && p == Pointer(f)
    requires n in t.tabs && i < ENTRYSZ && t.tabs[n] < NFRAMES && pde == Pointer(t.tabs[n]) + 8 * i
    modifies mc.frames
    ensures mc.R() == Linked(old(mc.R()), t, n, i, f)
  {
    mc.Memset(p, f, 0);
    mc.Store(pde, t.tabs[n], i, V2P(p) + PDEFLAGS);
  }

  // kalloc, memset and the store into the parent's entry.
  method NewTable(mc: Machine, pde: u64, ghost root: nat, ghost t: Tree, ghost n: Node, ghost i: nat)
    returns (ok: bool, ghost u: Tree, ghost took: seq<nat>)
    requires mc.Valid() && TreeOk(mc.end, mc.R(), root, t)
    requires n in t.tabs && n.level < 3 && i < ENTRYSZ && Child(n, i) !in t.tabs && t.tabs[n] < NFRAMES
    requires pde == Pointer(t.tabs[n]) + 8 * i
    modifies mc, mc.frames
    ensures mc.Valid() && Grew(mc.end, old(mc.R()), t, mc.R(), u, root, took)
    ensures ok <==> Child(n, i) in u.tabs
    ensures u.tabs.Keys <= t.tabs.Keys + {Child(n, i)}
    ensures !ok ==> mc.free == []
  {
    ghost var r := mc.R();
    u, took := t, [];
    var p := mc.Kalloc();
    ok := p != 0;
    if ok {
      GrewOne(mc.end, r, t, n, i, root);
      u, took := Added(t, Child(n, i), r.free[0]), [r.free[0]];
      Hang(mc, p, r.free[0], pde, t, n, i);
    } else {
      GrewSame(mc.end, r, t, root);
    }
  }

  /** Follows or makes the entry i of table n; answers whether there is one now. */
  method PdeValidate(mc: Machine, pde: u64, alloc: bool, ghost root: nat, ghost t: Tree, ghost n: Node, ghost i: nat)
    returns (ok: bool, ghost u: Tree, ghost took: seq<nat>)
    requires mc.Valid() && TreeOk(mc.end, mc.R(), root, t)
    requires n in t.tabs && n.level < 3 && i < ENTRYSZ && t.tabs[n] < NFRAMES && pde == Pointer(t.tabs[n]) + 8 * i
    modifies mc, mc.frames
    ensures mc.Valid() && Grew(mc.end, old(mc.R()), t, mc.R(), u, root, took)
    ensures ok <==> Child(n, i) in u.tabs
    ensures u.tabs.Keys <= t.tabs.Keys + {Child(n, i)}
    ensures !ok ==> Child(n, i) !in t.tabs && (alloc ==> mc.free == [])
    ensures !alloc ==> mc.R() == old(mc.R()) && u == t
  {
    assert EntryOk(mc.R(), t, n, i);
    var e := mc.Load(pde, t.tabs[n], i);
    ok := e % 2 == PTE_P;
    if !ok && alloc {
      ok, u, took := NewTable(mc, pde, root, t, n, i);
    } else {
      u, took := t, [];
      GrewSame(mc.end, mc.R(), t, root);
    }
  }

  // The pointer stored in an entry is the child's.
  lemma PdeLeads(f: nat)
    requires f < NFRAMES
    ensures Pde(f) % 2 == PTE_P && P2V(PteAddr(Pde(f))) == Pointer(f)
  {
    PageSum(f * PGSIZE, PDEFLAGS);
  }

  lemma EntryLeads(end: u64, r: Ram, root: nat, t: Tree, n: Node, i: nat, e: u64)
    requires TreeOk(end, r, root, t) && n in t.tabs && n.level < 3 && i < ENTRYSZ && t.tabs[n] < NFRAMES
    requires Child(n, i) in t.tabs && e == Word(r.m, t.tabs[n], i)
    ensures t.tabs[Child(n, i)] < NFRAMES && P2V(PteAddr(e)) == Pointer(t.tabs[Child(n, i)])
  {
    assert EntryOk(r, t, n, i);
    PdeLeads(t.tabs[Child(n, i)]);
  }

  // The table pointer for level on the way to va.
  ghost predicate Reached(u: Tree, level: nat, va: u64, table: u64) {
    var n := On(level, Key(va));
    n in u.tabs && u.tabs[n] < NFRAMES && table == Pointer(u.tabs[n])
  }

  // The tables below the root on the way to page number k.
  ghost function Path(k: nat): set<Node> {
    {On(1, k), On(2, k), On(3, k)}
  }

  // Why a walk stopped short: a table is missing, and if it may be made there is no frame for it.
  ghost predicate CutOff(alloc: bool, free: seq<nat>, u: Tree, va: u64) {
    On(3, Key(va)) !in u.tabs && (alloc ==> free == [])
  }

  // A walk from a, t that has come to a level, or stopped short, at b, u.
  ghost predicate Walked(end: u64, alloc: bool, a: Ram, t: Tree, b: Ram, u: Tree, took: seq<nat>, root: nat,
                         va: u64, level: nat, table: u64)
    requires level <= 3
  {
    && Grew(end, a, t, b, u, root, took)
    && (if table != 0 then Reached(u, level, va, table) else CutOff(alloc, b.free, u, va))
    && u.tabs.Keys <= t.tabs.Keys + Path(Key(va))
    && (!alloc ==> b == a && u == t)
  }

  lemma WalkedMore(end: u64, alloc: bool, a: Ram, t: Tree, b: Ram, u: Tree, took: seq<nat>, c: Ram, w: Tree, more: seq<nat>,
                   root: nat, va: u64, level: nat, table: u64, next: u64)
    requires level < 3 && table != 0
    requires Walked(end, alloc, a, t, b, u, took, root, va, level, table)
    requires Walked(end, alloc, b, u, c, w, more, root, va, level + 1, next)
    ensures Walked(end, alloc, a, t, c, w, took + more, root, va, level + 1, next)
  {
    GrewMore(end, a, t, b, u, took, c, w, more, root);
  }

  // One level down, or 0.
  method WalkStep(mc: Machine, table: u64, level: nat, va: u64, alloc: bool, ghost root: nat, ghost t: Tree)
    returns (next: u64, ghost u: Tree, ghost took: seq<nat>)
    requires mc.Valid() && TreeOk(mc.end, mc.R(), root, t) && level < 3 && Reached(t, level, va, table)
    modifies mc, mc.frames
    ensures mc.Valid() && Walked(mc.end, alloc, old(mc.R()), t, mc.R(), u, took, root, va, level + 1, next)
  {
    OnStep(level, va);
    ghost var n, i := On(level, Key(va)), Ptx(level, va);
    var pde := table + 8 * Ptx(level, va);
    next := 0;
    var ok;
    ok, u, took := PdeValidate(mc, pde, alloc, root, t, n, i);
    if ok {
      var e := mc.Load(pde, u.tabs[n], i);
      EntryLeads(mc.end, mc.R(), root, u, n, i, e);
      next := P2V(PteAddr(e));
    } else {
      Missing(mc.end, mc.R(), root, u, level + 1, Key(va));
    }
  }

  // The loop of pgdir_walk.
  method Descend(mc: Machine, pgdir: u64, va: u64, alloc: bool, ghost root: nat, ghost t: Tree)
    returns (table: u64, ghost u: Tree, ghost took: seq<nat>)
    requires mc.Valid() && TreeOk(mc.end, mc.R(), root, t) && root < NFRAMES && pgdir == Pointer(root)
    modifies mc, mc.frames
    ensures mc.Valid() && Walked(mc.end, alloc, old(mc.R()), t, mc.R(), u, took, root, va, 3, table)
  {
    u, took := t, [];
    GrewSame(mc.end, mc.R(), t, root);
    table := pgdir;
    OnStep(0, va);
    ghost var a := mc.R();
    var level := 0;
    while level < 3
      invariant level <= 3 && mc.Valid()
      invariant Walked(mc.end, alloc, a, t, mc.R(), u, took, root, va, level, table)
    {
      if table != 0 {
        ghost var b, w, more := mc.R(), u, took;
        ghost var here := table;
        table, w, more := WalkStep(mc, table, level, va, alloc, root, u);
        WalkedMore(mc.end, alloc, a, t, b, u, took, mc.R(), w, more, root, va, level, here, table);
        u, took := w, took + more;
      }
      level := level + 1;
    }
  }

  /** The address of the leaf entry for va, making missing tables if asked to. */
  method PgdirWalk(mc: Machine, pgdir: u64, va: u64, alloc: bool, ghost root: nat, ghost t: Tree)
    returns (pte: u64, ghost u: Tree, ghost took: seq<nat>)
    requires mc.Valid() && TreeOk(mc.end, mc.R(), root, t) && root < NFRAMES && pgdir == Pointer(root)
    modifies mc, mc.frames
    ensures mc.Valid() && Grew(mc.end, old(mc.R()), t, mc.R(), u, root, took)
    ensures if pte != 0 then Canonical(va) && EntryAt(u, Key(va), pte) else !Canonical(va) || CutOff(alloc, mc.free, u, va)
    ensures u.tabs.Keys <= t.tabs.Keys + Path(Key(va))
    ensures !alloc ==> mc.R() == old(mc.R()) && u == t
  {
    var sign := va / 0x1_0000_0000_0000 % 0x1_0000;
    if sign != 0 && sign != 0xFFFF {
      u, took, pte := t, [], 0;
      GrewSame(mc.end, mc.R(), t, root);
    } else {
      pte, u, took := Descend(mc, pgdir, va, alloc, root, t);
      OnStep(3, va);
      if pte != 0 {
        pte := pte + 8 * Ptx(3, va);
      }
    }
  }

  // The pointer to page number k's leaf entry.
  ghost predicate EntryAt(u: Tree, k: nat, pte: u64) {
    var n := On(3, k);
    n in u.tabs && u.tabs[n] < NFRAMES && pte == Pointer(u.tabs[n]) + 8 * (k % ENTRYSZ)
  }

  // A missing table has no tables below it.
  lemma {:induction false} Missing(end: u64, r: Ram, root: nat, t: Tree, level: nat, k: nat)
    requires TreeOk(end, r, root, t) && 1 <= level <= 3 && On(level, k) !in t.tabs
    ensures On(3, k) !in t.tabs
    decreases 3 - level
  {
    if level < 3 {
      if On(level + 1, k) in t.tabs {
        assert NodeOk(end, r, t, On(level + 1, k));
      }
      Missing(end, r, root, t, level + 1, k);
    }
  }

  // What the processor does from the table in frame f on: nine bits of the address pick an entry, which
  // holds the frame of the next table, or, in the last one, is the leaf.
  function Descent(m: Mem, f: nat, va: u64, level: nat): u64
    requires f < NFRAMES && level <= 3
    decreases 3 - level
  {
    var e := m[f][[va / 0x80_0000_0000, va / 0x4000_0000, va / 0x20_0000, va / 0x1000][level] % 512];
    if level == 3 then e
    else if e % 2 == 0 || e / 4096 >= NFRAMES then 0
    else Descent(m, e / 4096, va, level + 1)
  }

  /** The flat map is what the processor finds. */
  lemma {:induction false} DescentIs(end: u64, r: Ram, root: nat, t: Tree, va: u64, level: nat)
    requires TreeOk(end, r, root, t) && level <= 3 && On(level, Key(va)) in t.tabs
    ensures t.tabs[On(level, Key(va))] < NFRAMES
    ensures Descent(r.m, t.tabs[On(level, Key(va))], va, level) == Look(r, t, Key(va))
    decreases 3 - level
  {
    var n, i := On(level, Key(va)), Ptx(level, va);
    OnStep(level, va);
    assert NodeOk(end, r, t, n);
    if level < 3 {
      assert EntryOk(r, t, n, i);
      if Child(n, i) in t.tabs {
        PdeFrame(t.tabs[Child(n, i)]);
        DescentIs(end, r, root, t, va, level + 1);
      } else {
        Missing(end, r, root, t, level + 1, Key(va));
      }
    } else {
      LastIndex(va);
    }
  }

  lemma PdeFrame(f: nat)
    requires f < NFRAMES
    ensures Pde(f) % 2 == 1 && Pde(f) / 4096 == f
  {
    PdeLeads(f);
  }

  lemma LastIndex(va: u64)
    ensures Ptx(3, va) == Key(va) % ENTRYSZ
  {
    LowDigits(va / PGSIZE, va / PGSIZE / KEYS, Key(va));
  }

  // ---------- mapping a region ----------

  // The leaf entry for page number k after n pages from va have been mapped to pages from pa.
  ghost function MappedAt(was: u64, k: nat, va: u64, pa: u64, perm: nat, n: nat): u64
    requires perm < PGSIZE
  {
    if n == 0 then was
    else if Key(Step(va, n - 1)) == k then Leaf(Step(pa, n - 1), perm)
    else MappedAt(was, k, va, pa, perm, n - 1)
  }

  // a + n * PGSIZE in 64 bits
  function Step(a: u64, n: nat): u64 { (a + n * PGSIZE) % TWO64 }

  // As Grew, with n pages mapped.
  ghost predicate Mapped(end: u64, a: Ram, t: Tree, b: Ram, u: Tree, root: nat, took: seq<nat>,
                         va: u64, pa: u64, perm: nat, n: nat)
    requires perm < PGSIZE
  {
    && RamOk(end, b) && TreeOk(end, b, root, u)
    && a.free == took + b.free
    && (forall k: nat :: Look(b, u, k) == MappedAt(Look(a, t, k), k, va, pa, perm, n))
    && (forall m | m in t.tabs :: m in u.tabs && u.tabs[m] == t.tabs[m])
    && (forall f: nat :: f in u.at <==> f in t.at || f in took)
    && (forall f: nat | f < NFRAMES && f !in u.at :: b.m[f] == a.m[f])
  }

  // One more walk and one more leaf.
  lemma MappedMore(end: u64, a: Ram, t: Tree, b: Ram, u: Tree, took: seq<nat>, c: Ram, w: Tree, more: seq<nat>, root: nat,
                   va: u64, pa: u64, perm: nat, n: nat)
    requires perm < PGSIZE && Mapped(end, a, t, b, u, root, took, va, pa, perm, n) && Grew(end, b, u, c, w, root, more)
    ensures Mapped(end, a, t, c, w, root, took + more, va, pa, perm, n)
  {
    assert a.free == (took + more) + c.free;
  }

  lemma MappedLeaf(end: u64, a: Ram, t: Tree, c: Ram, w: Tree, took: seq<nat>, root: nat, va: u64, pa: u64, perm: nat, n: nat)
    requires perm < PGSIZE && Mapped(end, a, t, c, w, root, took, va, pa, perm, n)
    requires On(3, Key(Step(va, n))) in w.tabs && w.tabs[On(3, Key(Step(va, n)))] < NFRAMES
    ensures Mapped(end, a, t, Leafed(c, w, Key(Step(va, n)), Leaf(Step(pa, n), perm)), w, root, took, va, pa, perm, n + 1)
  {
    LeafedOk(end, c, root, w, Key(Step(va, n)), Leaf(Step(pa, n), perm));
    assert NodeOk(end, c, w, On(3, Key(Step(va, n))));
  }

  // The store into a leaf entry.
  method SetLeaf(mc: Machine, pte: u64, v: u64, ghost u: Tree, ghost k: nat)
    requires mc.frames.Length == NFRAMES && EntryAt(u, k, pte)
    modifies mc.frames
    ensures mc.R() == Leafed(old(mc.R()), u, k, v)
  {
    mc.Store(pte, u.tabs[On(3, k)], k % ENTRYSZ, v);
  }

  // The tables for n pages from va on.
  ghost function Paths(va: u64, n: nat): set<Node> {
    if n == 0 then {} else Paths(va, n - 1) + Path(Key(Step(va, n - 1)))
  }

  // Exactly the tables for n pages were made if they were missing, or some more for the next page.
  ghost predicate Tabled(t: Tree, u: Tree, va: u64, n: nat, done: bool) {
    && t.tabs.Keys + Paths(va, n) <= u.tabs.Keys
    && if done then u.tabs.Keys <= t.tabs.Keys + Paths(va, n)
       else u.tabs.Keys <= t.tabs.Keys + Paths(va, n + 1) && On(3, Key(Step(va, n))) !in u.tabs
  }

  // With the last table of a path come the others.
  lemma WholePath(end: u64, r: Ram, root: nat, t: Tree, k: nat)
    requires TreeOk(end, r, root, t) && On(3, k) in t.tabs
    ensures Path(k) <= t.tabs.Keys
  {
    assert NodeOk(end, r, t, On(3, k)) && NodeOk(end, r, t, On(2, k));
  }

  // One round of map_region's loop.
  method MapPage(mc: Machine, pgdir: u64, va: u64, pa: u64, perm: nat, n: nat,
                 ghost root: nat, ghost a: Ram, ghost t: Tree, ghost u: Tree, ghost took: seq<nat>)
    returns (ok: bool, ghost w: Tree, ghost all: seq<nat>)
    requires mc.Valid() && root < NFRAMES && pgdir == Pointer(root) && perm < PGSIZE
    requires Mapped(mc.end, a, t, mc.R(), u, root, took, va, pa, perm, n) && Tabled(t, u, va, n, true)
    modifies mc, mc.frames
    ensures mc.Valid() && Mapped(mc.end, a, t, mc.R(), w, root, all, va, pa, perm, if ok then n + 1 else n)
    ensures !ok ==> !Canonical(Step(va, n)) || (mc.free == [] && Tabled(t, w, va, n, false))
    ensures ok ==> Canonical(Step(va, n)) && Tabled(t, w, va, n + 1, true)
  {
    hide Look, MappedAt, NodeOk, EntryOk, Threaded, NoDup;
    ghost var b := mc.R();
    var pte;
    ghost var more;
    pte, w, more := PgdirWalk(mc, pgdir, Step(va, n), true, root, u);
    MappedMore(mc.end, a, t, b, u, took, mc.R(), w, more, root, va, pa, perm, n);
    all := took + more;
    ok := pte != 0;
    if ok {
      MappedLeaf(mc.end, a, t, mc.R(), w, all, root, va, pa, perm, n);
      WholePath(mc.end, mc.R(), root, w, Key(Step(va, n)));
      SetLeaf(mc, pte, Leaf(Step(pa, n), perm), w, Key(Step(va, n)));
    }
  }

  /** Maps the pages from va to those of the kernel address pa: on success every page of the region,
      otherwise those before the one whose address is not canonical or for which memory ran out.
      Every other translation is as before, and every frame taken has become part of the tree. */
  method MapRegion(mc: Machine, pgdir: u64, va: u64, size: u64, pa: u64, perm: nat, ghost root: nat, ghost t: Tree)
    returns (err: bool, ghost n: nat, ghost u: Tree, ghost took: seq<nat>)
    requires mc.Valid() && TreeOk(mc.end, mc.R(), root, t) && root < NFRAMES && pgdir == Pointer(root)
    requires perm < PGSIZE && size <= TWO64 - PGSIZE
    modifies mc, mc.frames
    ensures mc.Valid() && Mapped(mc.end, old(mc.R()), t, mc.R(), u, root, took, va, pa, perm, n)
    ensures if err then n * PGSIZE < size && (!Canonical(Step(va, n)) || (mc.free == [] && Tabled(t, u, va, n, false)))
            else Tabled(t, u, va, n, true) && ((n == 0 && size == 0) || (n > 0 && (n - 1) * PGSIZE < size <= n * PGSIZE))
  {
    ghost var a := mc.R();
    u, took, n, err := t, [], 0, false;
    GrewSame(mc.end, a, t, root);
    var i := 0;
    var page: nat := 0;
    while i < size && !err
      invariant mc.Valid() && Mapped(mc.end, a, t, mc.R(), u, root, took, va, pa, perm, n)
      invariant i == page * PGSIZE
      invariant if err then n == page - 1 && n * PGSIZE < size && (!Canonical(Step(va, n)) || (mc.free == [] && Tabled(t, u, va, n, false)))
                else Tabled(t, u, va, n, true) && n == page && (page > 0 ==> (page - 1) * PGSIZE < size)
    {
      var ok;
      ok, u, took := MapPage(mc, pgdir, va, pa, perm, page, root, a, t, u, took);
      err := !ok;
      n := if ok then n + 1 else n;
      i := i + PGSIZE;
      page := page + 1;
    }
  }

  // ---------- how many frames mapping takes ----------

  lemma {:induction false} SameCount(m: map<Node, nat>, w: map<nat, Node>)
    requires forall n | n in m :: m[n] in w && w[m[n]] == n
    requires forall f | f in w :: w[f] in m && m[w[f]] == f
    ensures |m.Keys| == |w.Keys|
    decreases |m.Keys|
  {
    if m.Keys == {} {
      assert w.Keys == {};
    } else {
      var n :| n in m;
      var f := m[n];
      assert (m - {n}).Keys == m.Keys - {n} && (w - {f}).Keys == w.Keys - {f};
      SameCount(m - {n}, w - {f});
    }
  }

  lemma TreeCount(end: u64, r: Ram, root: nat, t: Tree)
    requires TreeOk(end, r, root, t)
    ensures |t.tabs.Keys| == |t.at.Keys|
  {
    forall n | n in t.tabs
      ensures t.tabs[n] in t.at && t.at[t.tabs[n]] == n
    {
      assert NodeOk(end, r, t, n);
    }
    SameCount(t.tabs, t.at);
  }

  lemma {:induction false} ListCount(fs: seq<nat>, rest: seq<nat>, s: set<nat>, u: set<nat>)
    requires NoDup(fs + rest) && forall f | f in fs :: f !in s
    requires forall f: nat :: f in u <==> f in s || f in fs
    ensures |u| == |s| + |fs|
    decreases |fs|
  {
    if fs == [] {
      assert u == s;
    } else {
      assert (fs + rest)[1..] == fs[1..] + rest;
      ListCount(fs[1..], rest, s, u - {fs[0]});
    }
  }

  // Every frame taken holds one more table.
  lemma TookCount(end: u64, a: Ram, t: Tree, b: Ram, u: Tree, root: nat, took: seq<nat>)
    requires RamOk(end, a) && TreeOk(end, a, root, t) && TreeOk(end, b, root, u) && a.free == took + b.free
    requires forall f: nat :: f in u.at <==> f in t.at || f in took
    ensures |u.tabs.Keys| == |t.tabs.Keys| + |took|
  {
    TreeCount(end, a, root, t);
    TreeCount(end, b, root, u);
    TablesNotFree(end, a, root, t);
    ListCount(took, b.free, t.at.Keys, u.at.Keys);
  }

  // The tables to be made for paths.
  ghost function Needed(tabs: set<Node>, paths: set<Node>): (n: nat)
    ensures n == |tabs + paths| - |tabs|
  {
    Subset(tabs, tabs + paths);
    |tabs + paths| - |tabs|
  }

  /** map_region below 2^48 fails exactly if there are fewer free frames than tables missing for its
      pages. */
  lemma MapFits(end: u64, a: Ram, t: Tree, b: Ram, u: Tree, root: nat, took: seq<nat>, va: u64, pages: nat, n: nat, err: bool)
    requires RamOk(end, a) && TreeOk(end, a, root, t) && TreeOk(end, b, root, u) && a.free == took + b.free
    requires forall f: nat :: f in u.at <==> f in t.at || f in took
    requires if err then n < pages && b.free == [] && Tabled(t, u, va, n, false) else n == pages && Tabled(t, u, va, n, true)
    ensures err <==> |a.free| < Needed(t.tabs.Keys, Paths(va, pages))
    ensures !err ==> |b.free| == |a.free| - Needed(t.tabs.Keys, Paths(va, pages))
  {
    TookCount(end, a, t, b, u, root, took);
    if err {
      MorePaths(va, n + 1, pages);
      var all := t.tabs.Keys + Paths(va, pages);
      assert On(3, Key(Step(va, n))) in Path(Key(Step(va, n)));
      assert On(3, Key(Step(va, n))) in Paths(va, n + 1);
      assert u.tabs.Keys <= all;
      Subset(u.tabs.Keys, all);
    } else {
      assert u.tabs.Keys == t.tabs.Keys + Paths(va, n);
    }
  }

  lemma {:induction false} MorePaths(va: u64, n: nat, m: nat)
    requires n <= m
    ensures Paths(va, n) <= Paths(va, m)
    decreases m
  {
    if n < m {
      MorePaths(va, n, m - 1);
    }
  }

  // ---------- what mapping a region means ----------

  lemma StepKey(va: u64, j: nat)
    requires va + j * PGSIZE < 0x1_0000_0000_0000
    ensures Step(va, j) == va + j * PGSIZE && Key(Step(va, j)) == Key(va) + j && Canonical(Step(va, j))
  {
    assert (va + j * PGSIZE) / PGSIZE == va / PGSIZE + j;
  }

  /** A region of n pages below 2^48 replaces exactly its n consecutive entries of the flat map. */
  lemma {:induction false} MappedIs(was: u64, k: nat, va: u64, pa: u64, perm: nat, n: nat)
    requires perm < PGSIZE && va + n * PGSIZE <= 0x1_0000_0000_0000
    ensures MappedAt(was, k, va, pa, perm, n)
         == if Key(va) <= k < Key(va) + n then Leaf(Step(pa, k - Key(va)), perm) else was
    decreases n
  {
    if n > 0 {
      StepKey(va, n - 1);
      MappedIs(was, k, va, pa, perm, n - 1);
    }
  }

  // ---------- translating ----------

  // The flat map's answer for a user address: the kernel address of its page, or 0.
  ghost function UserPage(r: Ram, t: Tree, va: u64): u64 {
    var e := Look(r, t, Key(va));
    if Canonical(va) && e % 2 == 1 && UserEntry(e) then P2V(PteAddr(e)) else 0
  }

  // The entry a pointer from the walk leads to is the flat map's.
  lemma EntryIsLook(r: Ram, t: Tree, k: nat, pte: u64)
    requires EntryAt(t, k, pte)
    ensures Word(r.m, t.tabs[On(3, k)], k % ENTRYSZ) == Look(r, t, k)
  {
  }

  // *pgdir_walk(pgdir, va, 0), or 0 when there is no table or no such address.
  method ReadEntry(mc: Machine, pgdir: u64, va: u64, ghost root: nat, ghost t: Tree) returns (e: u64)
    requires mc.Valid() && TreeOk(mc.end, mc.R(), root, t) && root < NFRAMES && pgdir == Pointer(root)
    modifies mc, mc.frames
    ensures mc.Valid() && mc.R() == old(mc.R())
    ensures e == if Canonical(va) then Look(mc.R(), t, Key(va)) else 0
  {
    var pte;
    ghost var u, took;
    pte, u, took := PgdirWalk(mc, pgdir, va, false, root, t);
    e := 0;
    if pte != 0 {
      EntryIsLook(mc.R(), t, Key(va), pte);
      e := mc.Load(pte, t.tabs[On(3, Key(va))], Key(va) % ENTRYSZ);
    }
  }

  /** Looks the address up in the flat map: a page is found only at a canonical address (bits 63..48 all
      alike) whose entry has bit 0, PTE_P, and bit 6, PTE_USER. */
  method AddrWalk(mc: Machine, pgdir: u64, va: u64, ghost root: nat, ghost t: Tree) returns (pa: u64)
    requires mc.Valid() && TreeOk(mc.end, mc.R(), root, t) && root < NFRAMES && pgdir == Pointer(root)
    modifies mc, mc.frames
    ensures mc.Valid() && mc.R() == old(mc.R())
    ensures pa == UserPage(mc.R(), t, va)
    ensures var e := Look(mc.R(), t, Key(va));
            if (va < 0x1_0000_0000_0000 || va >= 0xFFFF_0000_0000_0000) && e % 2 == 1 && e / 64 % 2 == 1
            then pa == P2V(e - e % 4096) else pa == 0
  {
    var e := ReadEntry(mc, pgdir, va, root, t);
    Bit6(e);
    assert !UserEntry(0);
    pa := if e % 2 == PTE_P && UserEntry(e) then P2V(PteAddr(e)) else 0;
  }
}
