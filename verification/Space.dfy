/** Address spaces: who owns which frame, and growing a process (uvm_alloc and uvm_dealloc in
    kern/vm.c). */
module Space {
  import opened Bits
  import opened Limits
  import opened Sets
  import opened Frames
  import opened PageTable
  import opened Vm

  const TOP := 0x1_0000_0000_0000
  const USERPERM := 0x42  // PTE_USER | PTE_RW | PTE_PAGE

  // A page table tree, and the data frame behind each mapped page number, and back.
  datatype Space = Space(t: Tree, pg: map<nat, nat>, key: map<nat, nat>)

  ghost predicate Owned(sp: Space, f: nat) {
    f in sp.t.at || f in sp.key
  }

  ghost predicate PageOk(end: u64, r: Ram, sp: Space, k: nat)
    requires k in sp.pg
  {
    var f := sp.pg[k];
    && On(3, k) in sp.t.tabs
    && Look(r, sp.t, k) % 2 == 1 && PteAddr(Look(r, sp.t, k)) == f * PGSIZE
    && Managed(end, f) && f !in r.free && f !in sp.t.at
    && f in sp.key && sp.key[f] == k
  }

  ghost predicate SpaceOk(end: u64, r: Ram, root: nat, sp: Space) {
    match sp
    case Space(t, pg, key) =>
      && TreeOk(end, r, root, t)
      && (forall k {:trigger PageOk(end, r, sp, k)} | k in pg :: PageOk(end, r, sp, k))
      && (forall f | f in key :: key[f] in pg && pg[key[f]] == f)
      && (forall k: nat | k !in pg :: Look(r, t, k) % 2 == 0)
  }

  // The frames behind page numbers first .. first + n - 1.
  ghost function Behind(sp: Space, first: nat, n: nat): set<nat> {
    set k | k in sp.pg && first <= k < first + n :: sp.pg[k]
  }

  // The frames that are free or owned are the same before and after, except that those of lost have
  // become neither.
  ghost predicate Conserved(a: Ram, sp: Space, b: Ram, sq: Space, lost: set<nat>) {
    && (forall f: nat :: f in b.free || Owned(sq, f) || f in lost <==> f in a.free || Owned(sp, f))
    && (forall f | f in lost :: f !in b.free && !Owned(sq, f))
  }

  // ---------- one page more ----------

  // The page f, taken off the free list and cleared.
  ghost function Cleared(a: Ram): Ram
    requires a.free != [] && a.free[0] < NFRAMES
  {
    Taken(a).(m := a.m[a.free[0] := Fill(0)])
  }

  lemma OwnedNotFree(end: u64, r: Ram, root: nat, sp: Space)
    requires SpaceOk(end, r, root, sp)
    ensures forall f: nat | Owned(sp, f) :: f !in r.free
  {
    TablesNotFree(end, r, root, sp.t);
    forall f | f in sp.key
      ensures f !in r.free
    {
      assert PageOk(end, r, sp, sp.key[f]);
    }
  }

  lemma ClearedOk(end: u64, a: Ram, root: nat, sp: Space)
    requires RamOk(end, a) && SpaceOk(end, a, root, sp) && a.free != []
    ensures RamOk(end, Cleared(a)) && SpaceOk(end, Cleared(a), root, sp)
    ensures !Owned(sp, a.free[0]) && a.free[0] !in Cleared(a).free
    ensures forall k: nat :: Look(Cleared(a), sp.t, k) == Look(a, sp.t, k)
  {
    TakenOk(end, a);
    FillOk(end, Taken(a), a.free[0], 0);
    var b, f := Cleared(a), a.free[0];
    OwnedNotFree(end, a, root, sp);
    forall n | n in sp.t.tabs
      ensures NodeOk(end, b, sp.t, n)
    {
      assert NodeOk(end, a, sp.t, n);
    }
    forall n, i: nat | n in sp.t.tabs && n.level < 3 && i < ENTRYSZ
      ensures EntryOk(b, sp.t, n, i)
    {
      assert NodeOk(end, a, sp.t, n) && EntryOk(a, sp.t, n, i);
    }
    forall k: nat
      ensures Look(b, sp.t, k) == Look(a, sp.t, k)
    {
      if On(3, k) in sp.t.tabs {
        assert NodeOk(end, a, sp.t, On(3, k));
      }
    }
    forall k | k in sp.pg
      ensures PageOk(end, b, sp, k)
    {
      assert PageOk(end, a, sp, k);
    }
  }

  // The space after its page number k was mapped to frame f, with tree u; the frame that was there
  // before belongs to nobody.
  function WithPage(sp: Space, u: Tree, k: nat, f: nat): Space {
    Space(u, sp.pg[k := f], (if k in sp.pg then sp.key - {sp.pg[k]} else sp.key)[f := k])
  }

  // The flat map got entry e for page number k, and the tree took some frames.
  ghost predicate GotPage(end: u64, a: Ram, root: nat, t: Tree, b: Ram, u: Tree, took: seq<nat>, k: nat, e: u64) {
    && RamOk(end, b) && TreeOk(end, b, root, u)
    && a.free == took + b.free
    && (forall j: nat :: Look(b, u, j) == if j == k then e else Look(a, t, j))
    && (forall m | m in t.tabs :: m in u.tabs && u.tabs[m] == t.tabs[m])
    && (forall f: nat :: f in u.at <==> f in t.at || f in took)
  }

  lemma StepZero(a: u64)
    ensures Step(a, 0) == a
  {
  }

  lemma MappedOnce(was: u64, k: nat, va: u64, pa: u64)
    ensures MappedAt(was, k, va, pa, USERPERM, 1) == if k == Key(va) then Leaf(pa, USERPERM) else was
  {
    StepZero(va);
    StepZero(pa);
  }

  // The entry for a user page in frame f.
  function UserLeaf(f: nat): u64
    requires f < NFRAMES
  {
    Leaf(Pointer(f), USERPERM)
  }

  // PTE_USER, PTE_RW and PTE_PAGE with what map_region adds.
  lemma UserFlags()
    ensures Or(USERPERM, LEAFFLAGS) == 0x747
  {
    assert Or(0, 1) == 1 && Or(0, 3) == 3;
    assert Or(0, 7) == 7 && Or(0, 0xE) == 0xE;
    assert Or(0, 0x1C) == 0x1C;
    assert Or(1, 0x1C) == 0x1D;
    assert Or(2, 0x38) == 0x3A;
    assert Or(4, 0x70) == 0x74;
    assert Or(8, 0xE0) == 0xE8;
    assert Or(0x10, 0x1C1) == 0x1D1;
    assert Or(0x21, 0x383) == 0x3A3;
  }

  lemma UserLeafAt(f: nat)
    requires f < NFRAMES
    ensures UserLeaf(f) % 2 == 1 && PteAddr(UserLeaf(f)) == f * PGSIZE && UserEntry(UserLeaf(f))
    ensures UserLeaf(f) == f * PGSIZE + 0x747
  {
    UserFlags();
    LeafAt(Pointer(f), USERPERM);
    assert PteAddr(Pointer(f)) == Pointer(f);
    assert Bit(USERPERM, 6) == Bit(0x21, 5) == Bit(0x10, 4) == Bit(0x8, 3) == Bit(0x4, 2) == Bit(0x2, 1) == Bit(0x1, 0);
  }

  lemma MapsOne(end: u64, a: Ram, root: nat, t: Tree, b: Ram, u: Tree, took: seq<nat>, va: u64, f: nat)
    requires f < NFRAMES
    requires Mapped(end, a, t, b, u, root, took, va, Pointer(f), USERPERM, 1)
    ensures GotPage(end, a, root, t, b, u, took, Key(va), UserLeaf(f))
  {
    forall j: nat
      ensures Look(b, u, j) == if j == Key(va) then UserLeaf(f) else Look(a, t, j)
    {
      MappedOnce(Look(a, t, j), j, va, Pointer(f));
    }
  }

  lemma PageMapped(end: u64, a: Ram, root: nat, sp: Space, b: Ram, u: Tree, took: seq<nat>, k: nat, e: u64, f: nat)
    requires RamOk(end, a) && SpaceOk(end, a, root, sp)
    requires Managed(end, f) && f !in a.free && !Owned(sp, f)
    requires GotPage(end, a, root, sp.t, b, u, took, k, e) && e % 2 == 1 && PteAddr(e) == f * PGSIZE
    ensures SpaceOk(end, b, root, WithPage(sp, u, k, f))
    ensures forall g: nat ::
              Owned(WithPage(sp, u, k, f), g) <==> (Owned(sp, g) && g !in Behind(sp, k, 1)) || g == f || g in took
  {
    var sq := WithPage(sp, u, k, f);
    assert Look(b, u, k) == e;
    if k in sp.pg {
      assert PageOk(end, a, sp, k);
    }
    assert Behind(sp, k, 1) == if k in sp.pg then {sp.pg[k]} else {};
    forall j | j in sq.pg
      ensures PageOk(end, b, sq, j)
    {
      if j != k {
        assert PageOk(end, a, sp, j);
      }
    }
    forall g | g in sq.key
      ensures sq.key[g] in sq.pg && sq.pg[sq.key[g]] == g
    {
      if g != f {
        assert g in sp.key;
      }
    }
  }

  // Tables gained without a page.
  lemma PageNotMapped(end: u64, a: Ram, root: nat, sp: Space, b: Ram, u: Tree, took: seq<nat>, va: u64, f: nat)
    requires RamOk(end, a) && SpaceOk(end, a, root, sp) && f < NFRAMES
    requires Mapped(end, a, sp.t, b, u, root, took, va, Pointer(f), USERPERM, 0)
    ensures SpaceOk(end, b, root, Space(u, sp.pg, sp.key))
    ensures forall g: nat :: Owned(Space(u, sp.pg, sp.key), g) <==> Owned(sp, g) || g in took
    ensures forall k: nat :: Look(b, u, k) == Look(a, sp.t, k)
  {
    forall j | j in sp.pg
      ensures PageOk(end, b, Space(u, sp.pg, sp.key), j)
    {
      assert PageOk(end, a, sp, j);
    }
  }

  // ---------- growing a process ----------

  // Page number k after n fresh zero pages were added from page number first on.
  ghost predicate ExtendedAt(a: Ram, sp: Space, b: Ram, sq: Space, first: nat, n: nat, k: nat) {
    if first <= k < first + n then
      k in sq.pg && sq.pg[k] < NFRAMES && b.m[sq.pg[k]] == Fill(0) && Look(b, sq.t, k) == UserLeaf(sq.pg[k])
    else
      && (k in sq.pg <==> k in sp.pg)
      && (k in sp.pg ==> sq.pg[k] == sp.pg[k] && (sp.pg[k] < NFRAMES ==> b.m[sp.pg[k]] == a.m[sp.pg[k]]))
      && Look(b, sq.t, k) == Look(a, sp.t, k)
  }

  ghost predicate Extended(a: Ram, sp: Space, b: Ram, sq: Space, first: nat, n: nat) {
    forall k: nat :: ExtendedAt(a, sp, b, sq, first, n, k)
  }

  lemma ExtendedMore(a: Ram, sp: Space, b: Ram, sq: Space, c: Ram, sr: Space, first: nat, n: nat, next: nat, m: nat, total: nat)
    requires next == first + n && total == n + m
    requires Extended(a, sp, b, sq, first, n) && Extended(b, sq, c, sr, next, m)
    requires forall k | k in sq.pg :: sq.pg[k] < NFRAMES
    ensures Extended(a, sp, c, sr, first, total)
  {
    forall k: nat
      ensures ExtendedAt(a, sp, c, sr, first, total, k)
    {
      assert ExtendedAt(a, sp, b, sq, first, n, k) && ExtendedAt(b, sq, c, sr, next, m, k);
    }
  }

  // A sound space again, with n fresh pages from page number first on; no frame is invented, and none
  // lost but those of pages that had been there.
  ghost predicate GrewBy(end: u64, a: Ram, root: nat, sp: Space, b: Ram, sq: Space, first: nat, n: nat) {
    && RamOk(end, b) && SpaceOk(end, b, root, sq)
    && Conserved(a, sp, b, sq, Behind(sp, first, n)) && Extended(a, sp, b, sq, first, n)
  }

  lemma PagesInMemory(end: u64, b: Ram, root: nat, sq: Space)
    requires SpaceOk(end, b, root, sq)
    ensures forall k | k in sq.pg :: sq.pg[k] < NFRAMES
  {
    forall k | k in sq.pg
      ensures sq.pg[k] < NFRAMES
    {
      assert PageOk(end, b, sq, k);
    }
  }

  lemma ConservedMore(a: Ram, sp: Space, b: Ram, sq: Space, c: Ram, sr: Space, lost: set<nat>, more: set<nat>)
    requires Conserved(a, sp, b, sq, lost) && Conserved(b, sq, c, sr, more)
    ensures Conserved(a, sp, c, sr, lost + more)
  {
  }

  // Later pages are still those of the beginning.
  lemma BehindMore(a: Ram, sp: Space, b: Ram, sq: Space, first: nat, n: nat, next: nat, m: nat, total: nat)
    requires next == first + n && total == n + m && Extended(a, sp, b, sq, first, n)
    ensures Behind(sp, first, total) == Behind(sp, first, n) + Behind(sq, next, m)
  {
    forall k: nat | next <= k
      ensures (k in sq.pg <==> k in sp.pg) && (k in sp.pg ==> sq.pg[k] == sp.pg[k])
    {
      assert ExtendedAt(a, sp, b, sq, first, n, k);
    }
  }

  lemma GrewByMore(end: u64, a: Ram, root: nat, sp: Space, b: Ram, sq: Space, c: Ram, sr: Space, first: nat, n: nat, next: nat, m: nat, total: nat)
    requires next == first + n && total == n + m
    requires GrewBy(end, a, root, sp, b, sq, first, n) && GrewBy(end, b, root, sq, c, sr, next, m)
    ensures GrewBy(end, a, root, sp, c, sr, first, total)
  {
    PagesInMemory(end, b, root, sq);
    BehindMore(a, sp, b, sq, first, n, next, m, total);
    ConservedMore(a, sp, b, sq, c, sr, Behind(sp, first, n), Behind(sq, next, m));
    ExtendedMore(a, sp, b, sq, c, sr, first, n, next, m, total);
  }

  lemma GrewByNone(end: u64, a: Ram, root: nat, sp: Space, first: nat)
    requires RamOk(end, a) && SpaceOk(end, a, root, sp)
    ensures GrewBy(end, a, root, sp, a, sp, first, 0)
  {
    assert Behind(sp, first, 0) == {};
  }

  // Giving back a frame that nobody owns.
  lemma GivenSpace(end: u64, a: Ram, root: nat, sp: Space, f: nat)
    requires RamOk(end, a) && SpaceOk(end, a, root, sp) && Managed(end, f) && f !in a.free && !Owned(sp, f)
    ensures RamOk(end, Given(a, f)) && SpaceOk(end, Given(a, f), root, sp)
    ensures forall k: nat :: Look(Given(a, f), sp.t, k) == Look(a, sp.t, k)
  {
    GivenOk(end, a, f);
    var b := Given(a, f);
    forall n | n in sp.t.tabs
      ensures NodeOk(end, b, sp.t, n)
    {
      assert NodeOk(end, a, sp.t, n);
    }
    forall n, i: nat | n in sp.t.tabs && n.level < 3 && i < ENTRYSZ
      ensures EntryOk(b, sp.t, n, i)
    {
      assert NodeOk(end, a, sp.t, n) && EntryOk(a, sp.t, n, i);
    }
    forall k: nat
      ensures Look(b, sp.t, k) == Look(a, sp.t, k)
    {
      if On(3, k) in sp.t.tabs {
        assert NodeOk(end, a, sp.t, On(3, k));
      }
    }
    forall k | k in sp.pg
      ensures PageOk(end, b, sp, k)
    {
      assert PageOk(end, a, sp, k);
    }
  }

  // kalloc and memset of a fresh page.
  method FreshPage(mc: Machine, ghost root: nat, ghost sp: Space) returns (mem: u64)
    requires mc.Valid() && SpaceOk(mc.end, mc.R(), root, sp)
    modifies mc, mc.frames
    ensures mc.Valid()
    ensures if old(mc.free) == [] then mem == 0 && mc.R() == old(mc.R())
            else mem == Pointer(old(mc.free)[0]) && mc.R() == Cleared(old(mc.R()))
  {
    ghost var a := mc.R();
    mem := mc.Kalloc();
    if mem != 0 {
      ClearedOk(mc.end, a, root, sp);
      mc.Memset(mem, a.free[0], 0);
      assert mc.R() == Cleared(a);
    }
  }

  lemma GrownPageExtends(end: u64, a: Ram, root: nat, sp: Space, b: Ram, u: Tree, took: seq<nat>, va: u64, f: nat, k: nat)
    requires RamOk(end, a) && SpaceOk(end, a, root, sp) && a.free != [] && f == a.free[0]
    requires Mapped(end, Cleared(a), sp.t, b, u, root, took, va, Pointer(f), USERPERM, 1)
    requires GotPage(end, Cleared(a), root, sp.t, b, u, took, Key(va), UserLeaf(f))
    ensures ExtendedAt(a, sp, b, WithPage(sp, u, Key(va), f), Key(va), 1, k)
  {
    ClearedOk(end, a, root, sp);
    assert a.free == [f] + (took + b.free);
    if k in sp.pg {
      assert PageOk(end, Cleared(a), sp, k);
    }
  }

  lemma GrownPageConserves(end: u64, a: Ram, root: nat, sp: Space, b: Ram, u: Tree, took: seq<nat>, k: nat, f: nat)
    requires RamOk(end, a) && SpaceOk(end, a, root, sp) && a.free == [f] + (took + b.free) && !Owned(sp, f)
    requires RamOk(end, b) && (forall g: nat :: g in u.at <==> g in sp.t.at || g in took)
    requires f !in took + b.free
    requires forall g: nat ::
               Owned(WithPage(sp, u, k, f), g) <==> (Owned(sp, g) && g !in Behind(sp, k, 1)) || g == f || g in took
    ensures Conserved(a, sp, b, WithPage(sp, u, k, f), Behind(sp, k, 1))
  {
    OwnedNotFree(end, a, root, sp);
    forall g | g in Behind(sp, k, 1)
      ensures Owned(sp, g)
    {
      assert PageOk(end, a, sp, k);
    }
  }

  lemma GrownPage(end: u64, a: Ram, root: nat, sp: Space, b: Ram, u: Tree, took: seq<nat>, va: u64, f: nat)
    requires RamOk(end, a) && SpaceOk(end, a, root, sp) && a.free != [] && f == a.free[0]
    requires Mapped(end, Cleared(a), sp.t, b, u, root, took, va, Pointer(f), USERPERM, 1)
    ensures GrewBy(end, a, root, sp, b, WithPage(sp, u, Key(va), f), Key(va), 1)
  {
    var sq, c := WithPage(sp, u, Key(va), f), Cleared(a);
    ClearedOk(end, a, root, sp);
    MapsOne(end, c, root, sp.t, b, u, took, va, f);
    UserLeafAt(f);
    PageMapped(end, c, root, sp, b, u, took, Key(va), UserLeaf(f), f);
    assert a.free == [f] + (took + b.free);
    GrownPageConserves(end, a, root, sp, b, u, took, Key(va), f);
    forall k: nat
      ensures ExtendedAt(a, sp, b, sq, Key(va), 1, k)
    {
      GrownPageExtends(end, a, root, sp, b, u, took, va, f, k);
    }
  }

  lemma GrownTablesExtends(end: u64, a: Ram, root: nat, sp: Space, b: Ram, u: Tree, took: seq<nat>, va: u64, f: nat, k: nat)
    requires RamOk(end, a) && SpaceOk(end, a, root, sp) && a.free != [] && f == a.free[0]
    requires Mapped(end, Cleared(a), sp.t, b, u, root, took, va, Pointer(f), USERPERM, 0)
    requires Look(Given(b, f), u, k) == Look(b, u, k)
    ensures ExtendedAt(a, sp, Given(b, f), Space(u, sp.pg, sp.key), Key(va), 0, k)
  {
    ClearedOk(end, a, root, sp);
    assert a.free == [f] + (took + b.free);
    if k in sp.pg {
      assert PageOk(end, Cleared(a), sp, k);
    }
  }

  lemma GrownTables(end: u64, a: Ram, root: nat, sp: Space, b: Ram, u: Tree, took: seq<nat>, va: u64, f: nat)
    requires RamOk(end, a) && SpaceOk(end, a, root, sp) && a.free != [] && f == a.free[0]
    requires Mapped(end, Cleared(a), sp.t, b, u, root, took, va, Pointer(f), USERPERM, 0)
    ensures Managed(end, f) && f !in b.free
    ensures GrewBy(end, a, root, sp, Given(b, f), Space(u, sp.pg, sp.key), Key(va), 0)
  {
    var sq, c := Space(u, sp.pg, sp.key), Cleared(a);
    ClearedOk(end, a, root, sp);
    PageNotMapped(end, c, root, sp, b, u, took, va, f);
    assert a.free == [f] + (took + b.free);
    GivenSpace(end, b, root, sq, f);
    forall k: nat
      ensures ExtendedAt(a, sp, Given(b, f), sq, Key(va), 0, k)
    {
      GrownTablesExtends(end, a, root, sp, b, u, took, va, f, k);
    }
  }

  // ---------- how many frames growing takes ----------

  // The tables on the way to n pages from page number first on.
  ghost function Lanes(first: nat, n: nat): set<Node> {
    if n == 0 then {} else Lanes(first, n - 1) + Path(first + n - 1)
  }

  // The frames for them: the pages and the tables that are missing.
  ghost function Price(tabs: set<Node>, first: nat, n: nat): nat {
    n + Needed(tabs, Lanes(first, n))
  }

  // They have been taken off the free list.
  ghost predicate Paid(a: Ram, sp: Space, b: Ram, sq: Space, first: nat, n: nat) {
    && sq.t.tabs.Keys == sp.t.tabs.Keys + Lanes(first, n)
    && |a.free| == |b.free| + Price(sp.t.tabs.Keys, first, n)
  }

  lemma PaidMore(a: Ram, sp: Space, b: Ram, sq: Space, c: Ram, sr: Space, first: nat, n: nat)
    requires Paid(a, sp, b, sq, first, n)
    ensures |b.free| >= Price(sq.t.tabs.Keys, first + n, 1) <==> |a.free| >= Price(sp.t.tabs.Keys, first, n + 1)
    ensures Paid(b, sq, c, sr, first + n, 1) ==> Paid(a, sp, c, sr, first, n + 1)
    ensures Price(sp.t.tabs.Keys, first, n) <= |a.free|
  {
    assert Lanes(first + n, 1) == Path(first + n);
    assert sp.t.tabs.Keys + Lanes(first, n + 1) == sq.t.tabs.Keys + Lanes(first + n, 1);
  }

  lemma {:induction false} PriceGrows(tabs: set<Node>, first: nat, n: nat, m: nat)
    requires n <= m
    ensures Price(tabs, first, n) + (m - n) <= Price(tabs, first, m)
    decreases m
  {
    if n < m {
      PriceGrows(tabs, first, n, m - 1);
      Subset(tabs + Lanes(first, m - 1), tabs + Lanes(first, m));
    }
  }

  lemma LaneIsPath(va: u64)
    ensures Paths(va, 1) == Lanes(Key(va), 1) == Path(Key(va))
  {
    StepZero(va);
    assert Paths(va, 0) == {} && Lanes(Key(va), 0) == {};
  }

  // What mapping the fresh page tells of the free list.
  lemma PagePrice(end: u64, a: Ram, root: nat, sp: Space, b: Ram, u: Tree, took: seq<nat>, va: u64, ok: bool)
    requires RamOk(end, a) && SpaceOk(end, a, root, sp) && a.free != []
    requires Mapped(end, Cleared(a), sp.t, b, u, root, took, va, Pointer(a.free[0]), USERPERM, if ok then 1 else 0)
    requires Tabled(sp.t, u, va, if ok then 1 else 0, ok) && (!ok ==> b.free == [])
    ensures ok <==> |a.free| >= Price(sp.t.tabs.Keys, Key(va), 1)
    ensures ok ==> u.tabs.Keys == sp.t.tabs.Keys + Lanes(Key(va), 1)
    ensures ok ==> |a.free| == |b.free| + Price(sp.t.tabs.Keys, Key(va), 1)
  {
    ClearedOk(end, a, root, sp);
    MapFits(end, Cleared(a), sp.t, b, u, root, took, va, 1, if ok then 1 else 0, !ok);
    LaneIsPath(va);
  }

  // Mapping a fresh page, or giving it back.
  method PlacePage(mc: Machine, pgdir: u64, va: u64, mem: u64, ghost root: nat, ghost a: Ram, ghost sp: Space)
    returns (ok: bool, ghost sq: Space)
    requires RamOk(mc.end, a) && SpaceOk(mc.end, a, root, sp) && root < NFRAMES && pgdir == Pointer(root)
    requires a.free != [] && mem == Pointer(a.free[0]) && mc.Valid() && mc.R() == Cleared(a)
    requires Canonical(va)
    modifies mc, mc.frames
    ensures mc.Valid() && GrewBy(mc.end, a, root, sp, mc.R(), sq, Key(va), if ok then 1 else 0)
    ensures ok <==> |a.free| >= Price(sp.t.tabs.Keys, Key(va), 1)
    ensures ok ==> Paid(a, sp, mc.R(), sq, Key(va), 1)
  {
    ghost var f := a.free[0];
    ClearedOk(mc.end, a, root, sp);
    var err;
    ghost var n, u, took;
    err, n, u, took := MapRegion(mc, pgdir, va, PGSIZE, mem, USERPERM, root, sp.t);
    ok := !err;
    StepZero(va);
    PagePrice(mc.end, a, root, sp, mc.R(), u, took, va, ok);
    if ok {
      assert n == 1;
      sq := WithPage(sp, u, Key(va), f);
      GrownPage(mc.end, a, root, sp, mc.R(), u, took, va, f);
    } else {
      assert n == 0;
      sq := Space(u, sp.pg, sp.key);
      GrownTables(mc.end, a, root, sp, mc.R(), u, took, va, f);
      FreeableIsManaged(mc.end, mem);
      var panicked := mc.Kfree(mem);
    }
  }

  /** A fresh page at va, or none and nothing lost; the latter exactly if there are too few free frames
      for the page and the tables missing on the way to it. A page that was there before is replaced. */
  method GrowPage(mc: Machine, pgdir: u64, va: u64, ghost root: nat, ghost sp: Space, ghost k: nat)
    returns (ok: bool, ghost sq: Space)
    requires mc.Valid() && SpaceOk(mc.end, mc.R(), root, sp) && root < NFRAMES && pgdir == Pointer(root)
    requires k == Key(va) && Canonical(va)
    modifies mc, mc.frames
    ensures mc.Valid() && GrewBy(mc.end, old(mc.R()), root, sp, mc.R(), sq, k, if ok then 1 else 0)
    ensures ok <==> |old(mc.free)| >= Price(sp.t.tabs.Keys, k, 1)
    ensures ok ==> Paid(old(mc.R()), sp, mc.R(), sq, k, 1)
  {
    ghost var a := mc.R();
    var mem := FreshPage(mc, root, sp);
    if mem != 0 {
      ok, sq := PlacePage(mc, pgdir, va, mem, root, a, sp);
    } else {
      ok, sq := false, sp;
      GrewByNone(mc.end, a, root, sp, k);
    }
  }

  // What uvm_alloc comes to.
  datatype Outcome = Grown(size: u64) | NoMemory | Panicked

  function Pages(oldsz: u64, newsz: u64): nat
    requires oldsz <= newsz
  {
    (newsz - oldsz + PGSIZE - 1) / PGSIZE
  }

  /** Success, failure or panic, told from the free frames and the tables there are: a failure after
      the first new page panics. */
  ghost function UvmOutcome(free: nat, tabs: set<Node>, oldsz: u64, newsz: u64): Outcome {
    if newsz < oldsz then Grown(oldsz)
    else if free >= Price(tabs, Key(oldsz), Pages(oldsz, newsz)) then Grown(newsz)
    else if free < Price(tabs, Key(oldsz), 1) then NoMemory
    else Panicked
  }

  /** With a root table only and four free frames, growing an empty process by two pages panics. */
  lemma PanickingGrowth()
    ensures UvmOutcome(4, {Node(0, 0)}, 0, 2 * PGSIZE) == Panicked
  {
    var root := {Node(0, 0)};
    assert Key(0) == 0 && Pages(0, 2 * PGSIZE) == 2;
    assert Lanes(0, 0) == {};
    assert Lanes(0, 1) == Path(0) && Lanes(0, 2) == Path(0) + Path(1);
    assert Path(0) == Path(1) == {Node(1, 0), Node(2, 0), Node(3, 0)};
    assert root + Path(0) == {Node(0, 0), Node(1, 0), Node(2, 0), Node(3, 0)};
    assert |root + Path(0)| == 4 && |root| == 1;
  }

  /** kfree refuses the address of a frame turned physical twice. */
  lemma UnmapPanics(end: u64, e: u64)
    requires end >= KERNBASE && PteAddr(e) < PHYSTOP
    ensures !Freeable(end, V2P(PteAddr(e)))
  {
  }

  // uvm_dealloc and uvm_unmap, up to what they do with the first page. The number of pages is an int.
  method Dealloc(mc: Machine, pgdir: u64, oldsz: u64, newsz: u64, ghost root: nat, ghost sp: Space) returns (panicked: bool)
    requires mc.Valid() && SpaceOk(mc.end, mc.R(), root, sp) && root < NFRAMES && pgdir == Pointer(root)
    modifies mc, mc.frames
    ensures mc.Valid() && mc.R() == old(mc.R())
    ensures panicked <==> newsz < oldsz && (newsz % PGSIZE != 0 || (oldsz - newsz) / PGSIZE % 0x1_0000_0000 != 0)
  {
    panicked := false;
    if newsz < oldsz {
      var npages := (oldsz - newsz) / PGSIZE % 0x1_0000_0000;
      if newsz % PGSIZE != 0 {
        panicked := true;
      } else if npages != 0 {
        var e := ReadEntry(mc, pgdir, newsz, root, sp.t);
        if Key(newsz) in sp.pg {
          assert PageOk(mc.end, mc.R(), sp, Key(newsz));
        }
        if e % 2 == 0 || e % PGSIZE == PTE_P {
          panicked := true;
        } else {
          UnmapPanics(mc.end, e);
          panicked := mc.Kfree(V2P(PteAddr(e)));
        }
      }
    }
  }

  // ---------- the pages made fit in memory ----------

  lemma {:induction false} CountBelow(fs: set<nat>, n: nat)
    requires forall f | f in fs :: f < n
    ensures |fs| <= n
    decreases n
  {
    if n == 0 {
      assert fs == {};
    } else {
      CountBelow(fs - {n - 1}, n - 1);
    }
  }

  lemma FewPages(end: u64, a: Ram, tabs: set<Node>, first: nat, n: nat)
    requires RamOk(end, a) && Price(tabs, first, n) <= |a.free|
    ensures n <= NFRAMES
  {
    var fs := set f | f in a.free;
    assert a.free + [] == a.free;
    ListCount(a.free, [], {}, fs);
    CountBelow(fs, NFRAMES);
  }

  /** A process is not made smaller. It grows by all the new pages, fresh and zero, if the free frames
      are enough for them and for the tables missing on the way. Otherwise it fails if they are not even
      enough for the first, and else panics in the attempt to take back the n pages it made. */
  method UvmAlloc(mc: Machine, pgdir: u64, oldsz: u64, newsz: u64, ghost root: nat, ghost sp: Space)
    returns (out: Outcome, ghost sq: Space, ghost n: nat)
    requires mc.Valid() && SpaceOk(mc.end, mc.R(), root, sp) && root < NFRAMES && pgdir == Pointer(root)
    requires oldsz + (NFRAMES + 1) * PGSIZE <= TOP
    modifies mc, mc.frames
    ensures mc.Valid() && GrewBy(mc.end, old(mc.R()), root, sp, mc.R(), sq, Key(oldsz), n)
    ensures out == UvmOutcome(|old(mc.free)|, sp.t.tabs.Keys, oldsz, newsz)
    ensures newsz < oldsz ==> out == Grown(oldsz) && mc.R() == old(mc.R()) && sq == sp && n == 0
    ensures newsz >= oldsz && out.Grown? ==> out.size == newsz && n == (newsz - oldsz + 4095) / 4096
    ensures (out == NoMemory ==> n == 0) && (out == Panicked ==> n > 0)
    ensures !out.Grown? ==> Price(sp.t.tabs.Keys, Key(oldsz), n) <= |old(mc.free)| < Price(sp.t.tabs.Keys, Key(oldsz), n + 1)
  {
    hide GrewBy, Paid, Price, SpaceOk, Extended;
    ghost var a := mc.R();
    sq, n := sp, 0;
    GrewByNone(mc.end, a, root, sp, Key(oldsz));
    if newsz < oldsz {
      out := Grown(oldsz);
    } else {
      var va := oldsz;
      var ok := true;
      PaidNone(a, sp, Key(oldsz));
      while va < newsz && ok
        invariant mc.Valid() && GrewBy(mc.end, a, root, sp, mc.R(), sq, Key(oldsz), n)
        invariant n <= NFRAMES && va == oldsz + n * PGSIZE && va < newsz + PGSIZE && (!ok ==> va < newsz)
        invariant ok ==> Paid(a, sp, mc.R(), sq, Key(oldsz), n)
        invariant Price(sp.t.tabs.Keys, Key(oldsz), n) <= |a.free|
        invariant !ok ==> |a.free| < Price(sp.t.tabs.Keys, Key(oldsz), n + 1)
        decreases newsz + PGSIZE - va, ok
      {
        PageNumber(oldsz, n, va);
        ok, sq, n := GrowRound(mc, pgdir, va, root, a, sp, sq, Key(oldsz), n, Key(va));
        FewPages(mc.end, a, sp.t.tabs.Keys, Key(oldsz), n);
        if ok {
          va := va + PGSIZE;
        }
      }
      Outcomes(|a.free|, sp.t.tabs.Keys, oldsz, newsz, n, ok, va);
      if ok {
        out := Grown(newsz);
      } else {
        FirstThere(mc.end, a, root, sp, mc.R(), sq, Key(oldsz), n);
        var panicked := Dealloc(mc, pgdir, va, oldsz, root, sq);
        WholePages(va, oldsz, n);
        out := if panicked then Panicked else NoMemory;
      }
    }
  }

  lemma WholePages(va: u64, oldsz: u64, n: nat)
    requires va == oldsz + n * PGSIZE && n <= NFRAMES
    ensures va >= oldsz && (va - oldsz) / PGSIZE % 0x1_0000_0000 == n
  {
    assert va - oldsz == PGSIZE * n;
  }

  // The pages of a process of that size.
  ghost predicate Holds(sp: Space, size: nat) {
    forall k: nat :: k in sp.pg <==> k * PGSIZE < size
  }

  // The pages there are after growing.
  lemma GrownPages(a: Ram, sp: Space, b: Ram, sq: Space, oldsz: u64, newsz: u64, k: nat)
    requires oldsz <= newsz && oldsz < TOP && Holds(sp, oldsz)
    requires Extended(a, sp, b, sq, Key(oldsz), Pages(oldsz, newsz))
    ensures k in sq.pg <==> if newsz == oldsz then k * PGSIZE < newsz else k < Key(oldsz) + Pages(oldsz, newsz)
  {
    assert Key(oldsz) == oldsz / PGSIZE;
    assert ExtendedAt(a, sp, b, sq, Key(oldsz), Pages(oldsz, newsz), k);
    assert k in sp.pg <==> k * PGSIZE < oldsz;
    assert newsz > oldsz ==> Pages(oldsz, newsz) > 0;
    assert k * PGSIZE < oldsz ==> k <= oldsz / PGSIZE;
    assert k < oldsz / PGSIZE ==> k * PGSIZE < oldsz;
  }

  lemma AllNeeded(oldsz: u64, newsz: u64, k: nat)
    requires oldsz < newsz && oldsz < TOP && k < Key(oldsz) + Pages(oldsz, newsz)
    ensures k * PGSIZE < newsz
  {
    assert Key(oldsz) == oldsz / PGSIZE;
    assert (Pages(oldsz, newsz) - 1) * PGSIZE < newsz - oldsz;
    assert k <= Key(oldsz) + Pages(oldsz, newsz) - 1;
  }

  lemma Covered(a: Ram, sp: Space, b: Ram, sq: Space, oldsz: u64, newsz: u64)
    requires oldsz <= newsz && oldsz < TOP && Holds(sp, oldsz)
    requires Extended(a, sp, b, sq, Key(oldsz), Pages(oldsz, newsz))
    ensures Holds(sq, newsz) <==> newsz == oldsz || (Key(oldsz) + Pages(oldsz, newsz)) * PGSIZE >= newsz
  {
    var last := Key(oldsz) + Pages(oldsz, newsz);
    forall k: nat
      ensures k in sq.pg <==> if newsz == oldsz then k * PGSIZE < newsz else k < last
    {
      GrownPages(a, sp, b, sq, oldsz, newsz, k);
    }
    if newsz > oldsz {
      forall k: nat | k < last
        ensures k * PGSIZE < newsz
      {
        AllNeeded(oldsz, newsz, k);
      }
      if last * PGSIZE >= newsz {
        forall k: nat | k * PGSIZE < newsz
          ensures k < last
        {
        }
      } else {
        assert last !in sq.pg;
      }
    }
  }

  // The page the old size ends in.
  lemma LastPage(sp: Space, oldsz: u64, n: nat)
    requires oldsz < TOP && Holds(sp, oldsz)
    ensures Key(oldsz) in sp.pg <==> oldsz % PGSIZE != 0
    ensures Behind(sp, Key(oldsz), n) == {} <==> oldsz % PGSIZE == 0 || n == 0
  {
    var q := Key(oldsz);
    assert q == oldsz / PGSIZE;
    forall k: nat | q < k
      ensures k !in sp.pg
    {
      assert k * PGSIZE >= (q + 1) * PGSIZE > oldsz;
    }
    if n > 0 && oldsz % PGSIZE != 0 {
      assert sp.pg[q] in Behind(sp, q, n);
    }
  }

  lemma FirstIsFresh(a: Ram, sp: Space, b: Ram, sq: Space, first: nat, n: nat)
    requires Extended(a, sp, b, sq, first, n) && n > 0
    ensures first in sq.pg && sq.pg[first] < NFRAMES && b.m[sq.pg[first]] == Fill(0)
  {
    assert ExtendedAt(a, sp, b, sq, first, n, first);
  }

  /** Growth is right for whole pages only. If the old size is not a multiple of the page size, the page
      it ends in is replaced by a zero page, and its frame is lost: neither free nor owned. And the
      pages then cover the new size only if the rest of that page makes up for it. */
  lemma GrowthOfProcess(end: u64, a: Ram, root: nat, sp: Space, b: Ram, sq: Space, oldsz: u64, newsz: u64)
    requires oldsz <= newsz && oldsz < TOP && Holds(sp, oldsz)
    requires GrewBy(end, a, root, sp, b, sq, Key(oldsz), Pages(oldsz, newsz))
    ensures Behind(sp, Key(oldsz), Pages(oldsz, newsz)) == {} <==> oldsz % PGSIZE == 0 || newsz == oldsz
    ensures oldsz % PGSIZE != 0 && newsz > oldsz ==>
              var k := Key(oldsz);
              && k in sp.pg && sp.pg[k] !in b.free && !Owned(sq, sp.pg[k])
              && k in sq.pg && sq.pg[k] < NFRAMES && b.m[sq.pg[k]] == Fill(0)
    ensures Holds(sq, newsz) <==> newsz == oldsz || (Key(oldsz) + Pages(oldsz, newsz)) * PGSIZE >= newsz
  {
    var q, n := Key(oldsz), Pages(oldsz, newsz);
    Covered(a, sp, b, sq, oldsz, newsz);
    LastPage(sp, oldsz, n);
    hide Holds, SpaceOk, RamOk, Extended;
    if newsz > oldsz && oldsz % PGSIZE != 0 {
      assert sp.pg[q] in Behind(sp, q, n);
      FirstIsFresh(a, sp, b, sq, q, n);
    }
  }

  lemma PaidNone(a: Ram, sp: Space, first: nat)
    ensures Paid(a, sp, a, sp, first, 0) && Price(sp.t.tabs.Keys, first, 0) == 0
  {
    assert sp.t.tabs.Keys + Lanes(first, 0) == sp.t.tabs.Keys;
  }

  lemma FirstThere(end: u64, a: Ram, root: nat, sp: Space, b: Ram, sq: Space, first: nat, n: nat)
    requires GrewBy(end, a, root, sp, b, sq, first, n)
    ensures n > 0 ==> first in sq.pg
    ensures SpaceOk(end, b, root, sq)
  {
    assert ExtendedAt(a, sp, b, sq, first, n, first);
  }

  // Where the loop ends, in terms of the prices.
  lemma Outcomes(free: nat, tabs: set<Node>, oldsz: u64, newsz: u64, n: nat, ok: bool, va: u64)
    requires oldsz <= newsz && va == oldsz + n * PGSIZE && va < newsz + PGSIZE && (ok <==> va >= newsz)
    requires Price(tabs, Key(oldsz), n) <= free && (!ok ==> free < Price(tabs, Key(oldsz), n + 1))
    ensures UvmOutcome(free, tabs, oldsz, newsz) == if ok then Grown(newsz) else if n == 0 then NoMemory else Panicked
    ensures ok ==> n == Pages(oldsz, newsz)
  {
    if ok {
      assert n == Pages(oldsz, newsz);
    } else {
      assert n + 1 <= Pages(oldsz, newsz);
      PriceGrows(tabs, Key(oldsz), n + 1, Pages(oldsz, newsz));
      if n > 0 {
        PriceGrows(tabs, Key(oldsz), 1, n);
      }
    }
  }

  lemma PageNumber(oldsz: u64, n: nat, va: u64)
    requires va == oldsz + n * PGSIZE && va < TOP
    ensures Canonical(va) && Key(va) == Key(oldsz) + n
  {
    StepKey(oldsz, n);
  }

  lemma GrownSpace(end: u64, a: Ram, root: nat, sp: Space, b: Ram, sq: Space, first: nat, n: nat)
    requires GrewBy(end, a, root, sp, b, sq, first, n)
    ensures SpaceOk(end, b, root, sq)
  {
  }

  // One round of uvm_alloc's loop.
  method GrowRound(mc: Machine, pgdir: u64, va: u64, ghost root: nat, ghost a: Ram, ghost sp: Space, ghost sq: Space,
                   ghost first: nat, ghost n: nat, ghost k: nat)
    returns (ok: bool, ghost sr: Space, ghost m: nat)
    requires mc.Valid() && GrewBy(mc.end, a, root, sp, mc.R(), sq, first, n) && root < NFRAMES && pgdir == Pointer(root)
    requires k == Key(va) && k == first + n && Canonical(va) && Paid(a, sp, mc.R(), sq, first, n)
    modifies mc, mc.frames
    ensures mc.Valid() && GrewBy(mc.end, a, root, sp, mc.R(), sr, first, m)
    ensures m == if ok then n + 1 else n
    ensures Price(sp.t.tabs.Keys, first, m) <= |a.free|
    ensures if ok then Paid(a, sp, mc.R(), sr, first, m) else |a.free| < Price(sp.t.tabs.Keys, first, n + 1)
  {
    hide Price, Paid, Extended, Conserved, SpaceOk, RamOk;
    ghost var b := mc.R();
    GrownSpace(mc.end, a, root, sp, b, sq, first, n);
    hide Price, Paid, SpaceOk, RamOk, Conserved, Extended;
    ok, sr := GrowPage(mc, pgdir, va, root, sq, k);
    m := if ok then n + 1 else n;
    PaidMore(a, sp, b, sq, mc.R(), sr, first, n);
    GrewByMore(mc.end, a, root, sp, b, sq, mc.R(), sr, first, n, k, if ok then 1 else 0, m);
  }
}
