/** The four-level page table as a tree of frames (kern/vm.c, inc/mmu.h; sections D4.2 and D4.3 of the
    Arm Architecture Reference Manual for Armv8-A) and the flat map that it stands for. */
module PageTable {
  import opened Limits
  import opened Frames

  const PTE_P := 0x1
  const PDEFLAGS := 0x43    // PTE_P | PTE_PAGE | PTE_USER | PTE_RW
  const LEAFFLAGS := 0x707  // PTE_P | PTE_TABLE | MT_NORMAL << 2 | PTE_AF | PTE_SH
  const KEYS := 0x10_0000_0000

  function PteAddr(e: u64): u64 { e - e % PGSIZE }

  function Pde(f: nat): u64
    requires f < NFRAMES
  {
    f * PGSIZE + PDEFLAGS
  }

  // The page number: bits 47..12 of an address.
  function Key(va: u64): nat { va / PGSIZE % KEYS }

  // PTX(level, va)
  function Ptx(level: nat, va: u64): nat
    requires level <= 3
  {
    (if level == 0 then va / 0x80_0000_0000
     else if level == 1 then va / 0x4000_0000
     else if level == 2 then va / 0x20_0000
     else va / 0x1000) % ENTRYSZ
  }

  // Bits 63..48 all equal.
  predicate Canonical(va: u64) {
    var sign := va / 0x1_0000_0000_0000 % 0x1_0000;
    sign == 0 || sign == 0xFFFF
  }

  // ---------- nodes ----------

  // The table of a level that serves the page numbers beginning with x.
  datatype Node = Node(level: nat, x: nat)

  function Up(n: Node): Node
    requires n.level > 0
  {
    Node(n.level - 1, n.x / ENTRYSZ)
  }

  function Child(n: Node, i: nat): Node { Node(n.level + 1, ENTRYSZ * n.x + i) }

  // The page number's digits above a level.
  function Prefix(level: nat, k: nat): nat {
    if level >= 4 then k
    else if level == 3 then k / ENTRYSZ
    else if level == 2 then k / ENTRYSZ / ENTRYSZ
    else if level == 1 then k / ENTRYSZ / ENTRYSZ / ENTRYSZ
    else k / ENTRYSZ / ENTRYSZ / ENTRYSZ / ENTRYSZ
  }

  // The table of a level on the way to page number k.
  function On(level: nat, k: nat): Node { Node(level, Prefix(level, k)) }

  lemma Shifts(va: u64)
    ensures Ptx(3, va) == va / PGSIZE % ENTRYSZ
    ensures Ptx(2, va) == va / PGSIZE / ENTRYSZ % ENTRYSZ
    ensures Ptx(1, va) == va / PGSIZE / ENTRYSZ / ENTRYSZ % ENTRYSZ
    ensures Ptx(0, va) == va / PGSIZE / ENTRYSZ / ENTRYSZ / ENTRYSZ % ENTRYSZ
  {
  }

  lemma LowDigit(a: nat, q: nat, k: nat)
    requires a == ENTRYSZ * q + k
    ensures a % ENTRYSZ == k % ENTRYSZ && a / ENTRYSZ == q + k / ENTRYSZ
  {
  }

  // Digits below the cut are the same before and after it.
  lemma LowDigits(a: nat, h: nat, k: nat)
    requires a == KEYS * h + k && k < KEYS
    ensures a % ENTRYSZ == k % ENTRYSZ
    ensures a / ENTRYSZ % ENTRYSZ == k / ENTRYSZ % ENTRYSZ
    ensures a / ENTRYSZ / ENTRYSZ % ENTRYSZ == k / ENTRYSZ / ENTRYSZ % ENTRYSZ
    ensures a / ENTRYSZ / ENTRYSZ / ENTRYSZ % ENTRYSZ == k / ENTRYSZ / ENTRYSZ / ENTRYSZ % ENTRYSZ
  {
    LowDigit(a, 0x800_0000 * h, k);
    LowDigit(a / ENTRYSZ, 0x4_0000 * h, k / ENTRYSZ);
    LowDigit(a / ENTRYSZ / ENTRYSZ, 0x200 * h, k / ENTRYSZ / ENTRYSZ);
    LowDigit(a / ENTRYSZ / ENTRYSZ / ENTRYSZ, h, k / ENTRYSZ / ENTRYSZ / ENTRYSZ);
  }

  // PTX of each level picks the next table on the way.
  lemma OnStep(level: nat, va: u64)
    requires level <= 3
    ensures Child(On(level, Key(va)), Ptx(level, va)) == On(level + 1, Key(va))
    ensures On(0, Key(va)) == Node(0, 0)
  {
    Shifts(va);
    LowDigits(va / PGSIZE, va / PGSIZE / KEYS, Key(va));
  }

  // Which frame holds which table, and back.
  datatype Tree = Tree(tabs: map<Node, nat>, at: map<nat, Node>)

  ghost predicate NodeOk(end: u64, r: Ram, t: Tree, n: Node)
    requires n in t.tabs
  {
    && n.level <= 3 && (n.level == 0 ==> n.x == 0) && (n.level > 0 ==> Up(n) in t.tabs)
    && Managed(end, t.tabs[n]) && t.tabs[n] !in r.free
    && t.tabs[n] in t.at && t.at[t.tabs[n]] == n
  }

  // Entry i of table n says where the next table is, or that there is none.
  ghost predicate EntryOk(r: Ram, t: Tree, n: Node, i: nat)
    requires n in t.tabs && t.tabs[n] < NFRAMES && i < ENTRYSZ
  {
    var e := Word(r.m, t.tabs[n], i);
    if Child(n, i) in t.tabs then t.tabs[Child(n, i)] < NFRAMES && e == Pde(t.tabs[Child(n, i)]) else e % 2 == 0
  }

  ghost predicate TreeOk(end: u64, r: Ram, root: nat, t: Tree) {
    match t
    case Tree(tabs, at) =>
      && Node(0, 0) in tabs && tabs[Node(0, 0)] == root
      && (forall n {:trigger NodeOk(end, r, t, n)} | n in tabs :: NodeOk(end, r, t, n))
      && (forall f | f in at :: at[f] in tabs && tabs[at[f]] == f)
      && (forall n, i: nat | n in tabs && tabs[n] < NFRAMES && n.level < 3 && i < ENTRYSZ :: EntryOk(r, t, n, i))
  }

  // The flat map: the leaf entry for page number k, 0 if there is no table for it.
  ghost function Look(r: Ram, t: Tree, k: nat): u64 {
    var n := On(3, k);
    if n in t.tabs && t.tabs[n] < NFRAMES then Word(r.m, t.tabs[n], k % ENTRYSZ) else 0
  }

  // ---------- growing the tree ----------

  ghost function Linked(r: Ram, t: Tree, n: Node, i: nat, f: nat): Ram
    requires n in t.tabs && t.tabs[n] < NFRAMES && i < ENTRYSZ && f < NFRAMES
  {
    Ram(SetWord(r.m[f := Fill(0)], t.tabs[n], i, Pde(f)), r.head, r.free)
  }

  ghost function Added(t: Tree, n: Node, f: nat): Tree {
    Tree(t.tabs[n := f], t.at[f := n])
  }

  ghost predicate CanAdd(end: u64, r: Ram, root: nat, t: Tree, n: Node, i: nat, f: nat) {
    && RamOk(end, r) && TreeOk(end, r, root, t)
    && n in t.tabs && n.level < 3 && i < ENTRYSZ && Child(n, i) !in t.tabs
    && Managed(end, f) && f !in r.free && f !in t.at && t.tabs[n] < NFRAMES
  }

  lemma AddNodes(end: u64, r: Ram, root: nat, t: Tree, n: Node, i: nat, f: nat, m: Node)
    requires CanAdd(end, r, root, t, n, i, f) && m in Added(t, Child(n, i), f).tabs
    ensures NodeOk(end, Linked(r, t, n, i, f), Added(t, Child(n, i), f), m)
  {
    if m != Child(n, i) {
      assert NodeOk(end, r, t, m);
    }
  }

  lemma ChildIsOne(m: Node, j: nat, n: Node, i: nat)
    requires i < ENTRYSZ && j < ENTRYSZ
    ensures Child(m, j) == Child(n, i) <==> m == n && j == i
    ensures Up(Child(n, i)) == n
  {
  }

  // A fresh table has no entries: nothing below it was in the tree.
  lemma AddFresh(end: u64, r: Ram, root: nat, t: Tree, n: Node, i: nat, f: nat, j: nat)
    requires CanAdd(end, r, root, t, n, i, f) && j < ENTRYSZ
    ensures Child(Child(n, i), j) !in t.tabs
    ensures EntryOk(Linked(r, t, n, i, f), Added(t, Child(n, i), f), Child(n, i), j)
  {
    assert NodeOk(end, r, t, n);
    ChildIsOne(Child(n, i), j, n, i);
    if Child(Child(n, i), j) in t.tabs {
      assert NodeOk(end, r, t, Child(Child(n, i), j));
      ChildIsOne(Child(n, i), j, Child(n, i), j);
    }
  }

  lemma AddEntries(end: u64, r: Ram, root: nat, t: Tree, n: Node, i: nat, f: nat, m: Node, j: nat)
    requires CanAdd(end, r, root, t, n, i, f) && m in t.tabs && m.level < 3 && j < ENTRYSZ
    requires m != Child(n, i) && t.tabs[m] < NFRAMES
    ensures EntryOk(Linked(r, t, n, i, f), Added(t, Child(n, i), f), m, j)
  {
    ChildIsOne(m, j, n, i);
    assert NodeOk(end, r, t, n) && NodeOk(end, r, t, m) && EntryOk(r, t, m, j);
  }

  lemma AddLook(end: u64, r: Ram, root: nat, t: Tree, n: Node, i: nat, f: nat, k: nat)
    requires CanAdd(end, r, root, t, n, i, f)
    ensures Look(Linked(r, t, n, i, f), Added(t, Child(n, i), f), k) == Look(r, t, k)
  {
    assert NodeOk(end, r, t, n);
    if On(3, k) in t.tabs {
      assert NodeOk(end, r, t, On(3, k));
    }
  }

  // A cleared frame hung into an empty entry is a tree again, for the same flat map.
  lemma AddOk(end: u64, r: Ram, root: nat, t: Tree, n: Node, i: nat, f: nat)
    requires CanAdd(end, r, root, t, n, i, f)
    ensures var q, u := Linked(r, t, n, i, f), Added(t, Child(n, i), f);
            RamOk(end, q) && TreeOk(end, q, root, u) && forall k: nat :: Look(q, u, k) == Look(r, t, k)
    // PTE_P, PTE_PAGE and PTE_USER
    ensures t.tabs[n] < NFRAMES && f < NFRAMES && Word(Linked(r, t, n, i, f).m, t.tabs[n], i) == f * PGSIZE + 0x43
  {
    var q, u := Linked(r, t, n, i, f), Added(t, Child(n, i), f);
    FillOk(end, r, f, 0);
    assert NodeOk(end, r, t, n);
    WriteOk(end, Ram(r.m[f := Fill(0)], r.head, r.free), t.tabs[n], i, Pde(f));
    forall m | m in u.tabs
      ensures NodeOk(end, q, u, m)
    {
      AddNodes(end, r, root, t, n, i, f, m);
    }
    forall m, j: nat | m in u.tabs && m.level < 3 && j < ENTRYSZ
      ensures EntryOk(q, u, m, j)
    {
      AddNodes(end, r, root, t, n, i, f, m);
      if m == Child(n, i) {
        AddFresh(end, r, root, t, n, i, f, j);
      } else {
        AddEntries(end, r, root, t, n, i, f, m, j);
      }
    }
    forall k: nat
      ensures Look(q, u, k) == Look(r, t, k)
    {
      AddLook(end, r, root, t, n, i, f, k);
    }
  }

  // From a to b the tree t has grown to u: same flat map, and the frames it gained are exactly
  // those taken off the front of the free list. Frames outside the tree are untouched.
  ghost predicate Grew(end: u64, a: Ram, t: Tree, b: Ram, u: Tree, root: nat, took: seq<nat>) {
    && RamOk(end, b) && TreeOk(end, b, root, u)
    && a.free == took + b.free
    && (forall k: nat :: Look(b, u, k) == Look(a, t, k))
    && (forall n | n in t.tabs :: n in u.tabs && u.tabs[n] == t.tabs[n])
    && (forall f: nat :: f in u.at <==> f in t.at || f in took)
    && (forall f: nat | f < NFRAMES && f !in u.at :: b.m[f] == a.m[f])
  }

  lemma GrewSame(end: u64, a: Ram, t: Tree, root: nat)
    requires RamOk(end, a) && TreeOk(end, a, root, t)
    ensures Grew(end, a, t, a, t, root, [])
  {
    assert a.free == [] + a.free;
  }

  lemma TablesNotFree(end: u64, r: Ram, root: nat, t: Tree)
    requires TreeOk(end, r, root, t)
    ensures forall f | f in t.at :: f !in r.free
  {
    forall f | f in t.at
      ensures f !in r.free
    {
      assert NodeOk(end, r, t, t.at[f]);
    }
  }

  // One kalloc, cleared and hung into an empty entry.
  lemma GrewOne(end: u64, a: Ram, t: Tree, n: Node, i: nat, root: nat)
    requires RamOk(end, a) && TreeOk(end, a, root, t) && a.free != []
    requires n in t.tabs && n.level < 3 && i < ENTRYSZ && Child(n, i) !in t.tabs && t.tabs[n] < NFRAMES
    ensures Grew(end, a, t, Linked(Taken(a), t, n, i, a.free[0]), Added(t, Child(n, i), a.free[0]), root, [a.free[0]])
  {
    var f := a.free[0];
    TakenOk(end, a);
    TakenTree(end, a, t, root);
    TablesNotFree(end, a, root, t);
    AddOk(end, Taken(a), root, t, n, i, f);
    assert a.free == [f] + Taken(a).free;
    assert NodeOk(end, a, t, n);
  }

  lemma TakenTree(end: u64, a: Ram, t: Tree, root: nat)
    requires RamOk(end, a) && TreeOk(end, a, root, t) && a.free != []
    ensures TreeOk(end, Taken(a), root, t) && forall k: nat :: Look(Taken(a), t, k) == Look(a, t, k)
  {
    forall n | n in t.tabs
      ensures NodeOk(end, Taken(a), t, n)
    {
      assert NodeOk(end, a, t, n);
    }
    forall n, i: nat | n in t.tabs && n.level < 3 && i < ENTRYSZ
      ensures EntryOk(Taken(a), t, n, i)
    {
      assert EntryOk(a, t, n, i);
    }
  }

  lemma GrewMore(end: u64, a: Ram, t: Tree, b: Ram, u: Tree, took: seq<nat>, c: Ram, w: Tree, more: seq<nat>, root: nat)
    requires Grew(end, a, t, b, u, root, took) && Grew(end, b, u, c, w, root, more)
    ensures Grew(end, a, t, c, w, root, took + more)
  {
    assert a.free == (took + more) + c.free;
  }
}
