/** vm_free: every frame of an address space goes back to the free list, once. */
module Reap {
  import opened Limits
  import opened Frames
  import opened PageTable
  import opened Vm
  import opened Space

  // Level 4 nodes are data pages.
  ghost predicate Has(sp: Space, n: Node) {
    if n.level <= 3 then n in sp.t.tabs else n.level == 4 && n.x in sp.pg
  }

  ghost function FrameAt(sp: Space, n: Node): nat
    requires Has(sp, n)
  {
    if n.level <= 3 then sp.t.tabs[n] else sp.pg[n.x]
  }

  // The order in which vm_free gives frames back: below entry 0, below entry 1, ..., then the table.
  ghost function Order(sp: Space, n: Node): seq<nat>
    requires Has(sp, n)
    decreases 4 - n.level, ENTRYSZ + 1
  {
    if n.level == 4 then [FrameAt(sp, n)] else Below(sp, n, ENTRYSZ) + [FrameAt(sp, n)]
  }

  ghost function Below(sp: Space, n: Node, j: nat): seq<nat>
    requires n.level < 4 && j <= ENTRYSZ
    decreases 4 - n.level, j
  {
    if j == 0 then []
    else Below(sp, n, j - 1) + (if Has(sp, Child(n, j - 1)) then Order(sp, Child(n, j - 1)) else [])
  }

  // ---------- which frames those are ----------

  ghost predicate Under(u: Node, n: Node)
    decreases u.level
  {
    u == n || (u.level > n.level && Under(Up(u), n))
  }

  // Subtrees of the same level are disjoint.
  lemma {:induction false} UnderOne(u: Node, a: Node, b: Node)
    requires Under(u, a) && Under(u, b) && a.level == b.level
    ensures a == b
    decreases u.level
  {
    if u.level > a.level {
      UnderOne(Up(u), a, b);
    }
  }

  lemma {:induction false} UnderChild(u: Node, n: Node, i: nat)
    requires i < ENTRYSZ && Under(u, Child(n, i))
    ensures Under(u, n) && u != n && u.level > n.level
    decreases u.level
  {
    ChildIsOne(n, i, n, i);
    if u != Child(n, i) {
      UnderChild(Up(u), n, i);
    }
  }

  // f is the frame of a node below n.
  ghost predicate HeldUnder(sp: Space, n: Node, f: nat) {
    exists u :: Has(sp, u) && FrameAt(sp, u) == f && Under(u, n)
  }

  lemma {:induction false} OrderHeld(sp: Space, n: Node, f: nat)
    requires Has(sp, n) && f in Order(sp, n)
    ensures HeldUnder(sp, n, f)
    decreases 4 - n.level, ENTRYSZ + 1
  {
    if f == FrameAt(sp, n) {
      assert Under(n, n);
    } else {
      var i := BelowHeld(sp, n, ENTRYSZ, f);
      var u :| Has(sp, u) && FrameAt(sp, u) == f && Under(u, Child(n, i));
      UnderChild(u, n, i);
    }
  }

  lemma {:induction false} BelowHeld(sp: Space, n: Node, j: nat, f: nat) returns (i: nat)
    requires n.level < 4 && j <= ENTRYSZ && f in Below(sp, n, j)
    ensures i < j && Has(sp, Child(n, i)) && HeldUnder(sp, Child(n, i), f)
    decreases 4 - n.level, j
  {
    if f in Below(sp, n, j - 1) {
      i := BelowHeld(sp, n, j - 1, f);
    } else {
      i := j - 1;
      OrderHeld(sp, Child(n, i), f);
    }
  }

  // One frame, one node.
  lemma OneNode(end: u64, r: Ram, root: nat, sp: Space, u: Node, v: Node)
    requires SpaceOk(end, r, root, sp) && Has(sp, u) && Has(sp, v) && FrameAt(sp, u) == FrameAt(sp, v)
    ensures u == v
  {
    if u.level <= 3 {
      assert NodeOk(end, r, sp.t, u);
    } else {
      assert PageOk(end, r, sp, u.x);
    }
    if v.level <= 3 {
      assert NodeOk(end, r, sp.t, v);
    } else {
      assert PageOk(end, r, sp, v.x);
    }
  }

  lemma SubtreesApart(end: u64, r: Ram, root: nat, sp: Space, n: Node, i: nat, j: nat, f: nat)
    requires SpaceOk(end, r, root, sp) && i < ENTRYSZ && j < ENTRYSZ
    requires HeldUnder(sp, Child(n, i), f) && HeldUnder(sp, Child(n, j), f)
    ensures i == j
  {
    var u :| Has(sp, u) && FrameAt(sp, u) == f && Under(u, Child(n, i));
    var v :| Has(sp, v) && FrameAt(sp, v) == f && Under(v, Child(n, j));
    OneNode(end, r, root, sp, u, v);
    UnderOne(u, Child(n, i), Child(n, j));
    ChildIsOne(n, i, n, j);
  }

  lemma TableApart(end: u64, r: Ram, root: nat, sp: Space, n: Node, i: nat)
    requires SpaceOk(end, r, root, sp) && Has(sp, n) && i < ENTRYSZ
    ensures !HeldUnder(sp, Child(n, i), FrameAt(sp, n))
  {
    if HeldUnder(sp, Child(n, i), FrameAt(sp, n)) {
      var u :| Has(sp, u) && FrameAt(sp, u) == FrameAt(sp, n) && Under(u, Child(n, i));
      OneNode(end, r, root, sp, u, n);
      UnderChild(u, n, i);
    }
  }

  lemma UpHas(end: u64, r: Ram, root: nat, sp: Space, u: Node)
    requires SpaceOk(end, r, root, sp) && Has(sp, u) && u.level > 0
    ensures Has(sp, Up(u)) && Child(Up(u), u.x % ENTRYSZ) == u
  {
    if u.level <= 3 {
      assert NodeOk(end, r, sp.t, u);
    } else {
      assert PageOk(end, r, sp, u.x);
    }
  }

  lemma {:induction false} AboveHas(end: u64, r: Ram, root: nat, sp: Space, u: Node, n: Node)
    requires SpaceOk(end, r, root, sp) && Has(sp, u) && Under(u, n)
    ensures Has(sp, n)
    decreases u.level
  {
    if u != n {
      UpHas(end, r, root, sp, u);
      AboveHas(end, r, root, sp, Up(u), n);
    }
  }

  // The child of n on the way to u.
  lemma {:induction false} Toward(n: Node, u: Node) returns (i: nat)
    requires Under(u, n) && u != n
    ensures i < ENTRYSZ && Under(u, Child(n, i))
    decreases u.level
  {
    if Up(u) == n {
      i := u.x % ENTRYSZ;
    } else {
      i := Toward(n, Up(u));
    }
  }

  lemma {:induction false} InBelow(sp: Space, n: Node, i: nat, j: nat, f: nat)
    requires n.level < 4 && i < j <= ENTRYSZ && Has(sp, Child(n, i)) && f in Order(sp, Child(n, i))
    ensures f in Below(sp, n, j)
    decreases j
  {
    if i < j - 1 {
      InBelow(sp, n, i, j - 1, f);
    }
  }

  /** The order names every frame of the subtree. */
  lemma {:induction false} OrderComplete(end: u64, r: Ram, root: nat, sp: Space, n: Node, u: Node)
    requires SpaceOk(end, r, root, sp) && Has(sp, n) && Has(sp, u) && Under(u, n)
    ensures FrameAt(sp, u) in Order(sp, n)
    decreases 4 - n.level
  {
    if u != n {
      var i := Toward(n, u);
      UnderChild(u, n, i);
      AboveHas(end, r, root, sp, u, Child(n, i));
      OrderComplete(end, r, root, sp, Child(n, i), u);
      InBelow(sp, n, i, ENTRYSZ, FrameAt(sp, u));
    }
  }

  lemma {:induction false} AllUnderRoot(end: u64, r: Ram, root: nat, sp: Space, u: Node)
    requires SpaceOk(end, r, root, sp) && Has(sp, u)
    ensures Under(u, Node(0, 0))
    decreases u.level
  {
    if u.level > 0 {
      UpHas(end, r, root, sp, u);
      AllUnderRoot(end, r, root, sp, Up(u));
    } else {
      assert NodeOk(end, r, sp.t, u);
    }
  }

  /** From the root it names exactly the frames the space owns. */
  lemma OrderIsOwned(end: u64, r: Ram, root: nat, sp: Space, f: nat)
    requires SpaceOk(end, r, root, sp)
    ensures f in Order(sp, Node(0, 0)) <==> Owned(sp, f)
  {
    if f in Order(sp, Node(0, 0)) {
      OrderHeld(sp, Node(0, 0), f);
      var u :| Has(sp, u) && FrameAt(sp, u) == f;
      if u.level <= 3 {
        assert NodeOk(end, r, sp.t, u);
      } else {
        assert PageOk(end, r, sp, u.x);
      }
    }
    if Owned(sp, f) {
      var u := if f in sp.t.at then sp.t.at[f] else Node(4, sp.key[f]);
      if f in sp.t.at {
        assert NodeOk(end, r, sp.t, u);
      }
      AllUnderRoot(end, r, root, sp, u);
      OrderComplete(end, r, root, sp, Node(0, 0), u);
    }
  }

  // ---------- freeing ----------

  function Reverse(fs: seq<nat>): seq<nat> {
    if fs == [] then [] else Reverse(fs[1..]) + [fs[0]]
  }

  lemma {:induction false} ReverseSum(a: seq<nat>, b: seq<nat>)
    ensures Reverse(a + b) == Reverse(b) + Reverse(a)
  {
    if a == [] {
      assert a + b == b;
    } else {
      assert (a + b)[1..] == a[1..] + b;
      ReverseSum(a[1..], b);
    }
  }

  lemma {:induction false} ReverseMembers(fs: seq<nat>, f: nat)
    ensures f in Reverse(fs) <==> f in fs
  {
    if fs != [] {
      ReverseMembers(fs[1..], f);
    }
  }

  // The frames fs, none of them free before, have been freed one after another; no others changed.
  ghost predicate Freed(end: u64, a: Ram, b: Ram, fs: seq<nat>) {
    match b
    case Ram(m, head, free) =>
      && RamOk(end, b)
      && free == Reverse(fs) + a.free
      && (forall f: nat {:trigger m[f]} | f < NFRAMES && f !in fs :: m[f] == a.m[f])
  }

  lemma FreedNone(end: u64, a: Ram)
    requires RamOk(end, a)
    ensures Freed(end, a, a, [])
  {
    assert Reverse([]) + a.free == a.free;
  }

  lemma FreedMembers(end: u64, a: Ram, b: Ram, fs: seq<nat>, f: nat)
    requires Freed(end, a, b, fs)
    ensures f in b.free <==> f in fs || f in a.free
  {
    ReverseMembers(fs, f);
  }

  lemma Joined(a: seq<nat>, b: seq<nat>, c: seq<nat>, fs: seq<nat>, gs: seq<nat>)
    requires b == Reverse(fs) + a && c == Reverse(gs) + b
    ensures c == Reverse(fs + gs) + a
  {
    ReverseSum(fs, gs);
  }

  lemma FreedMore(end: u64, a: Ram, b: Ram, c: Ram, fs: seq<nat>, gs: seq<nat>)
    requires Freed(end, a, b, fs) && Freed(end, b, c, gs)
    ensures Freed(end, a, c, fs + gs)
  {
    Joined(a.free, b.free, c.free, fs, gs);
    forall f: nat | f < NFRAMES && f !in fs + gs
      ensures c.m[f] == a.m[f]
    {
      assert f !in fs && f !in gs;
    }
  }

  lemma FreedOne(end: u64, a: Ram, f: nat)
    requires RamOk(end, a) && Managed(end, f) && f !in a.free
    ensures Freed(end, a, Given(a, f), [f])
  {
    GivenOk(end, a, f);
    assert Reverse([f]) == [f];
  }

  // The frames of the subtree are as they were in r, and not free.
  ghost predicate Whole(r: Ram, now: Ram, sp: Space, n: Node) {
    forall f: nat | HeldUnder(sp, n, f) :: f < NFRAMES && now.m[f] == r.m[f] && f !in now.free
  }

  // A frame of the subtree is not among those fs freed so far: it is still whole.
  lemma StillWhole(end: u64, r: Ram, a: Ram, b: Ram, sp: Space, n: Node, m: Node, fs: seq<nat>)
    requires Whole(r, a, sp, n) && Freed(end, a, b, fs)
    requires forall f: nat | HeldUnder(sp, m, f) :: HeldUnder(sp, n, f) && f !in fs
    ensures Whole(r, b, sp, m)
  {
    forall f: nat | HeldUnder(sp, m, f)
      ensures f < NFRAMES && b.m[f] == r.m[f] && f !in b.free
    {
      FreedMembers(end, a, b, fs, f);
    }
  }

  // Before entry i is looked at, its subtree is whole.
  lemma ChildWhole(end: u64, r: Ram, root: nat, a: Ram, b: Ram, sp: Space, n: Node, i: nat)
    requires SpaceOk(end, r, root, sp) && Has(sp, n) && n.level < 4 && i < ENTRYSZ
    requires Whole(r, a, sp, n) && Freed(end, a, b, Below(sp, n, i))
    ensures Whole(r, b, sp, Child(n, i))
  {
    forall f: nat | HeldUnder(sp, Child(n, i), f)
      ensures HeldUnder(sp, n, f) && f !in Below(sp, n, i)
    {
      var u :| Has(sp, u) && FrameAt(sp, u) == f && Under(u, Child(n, i));
      UnderChild(u, n, i);
      if f in Below(sp, n, i) {
        var j := BelowHeld(sp, n, i, f);
        SubtreesApart(end, r, root, sp, n, i, j, f);
      }
    }
    StillWhole(end, r, a, b, sp, n, Child(n, i), Below(sp, n, i));
  }

  // The table itself is whole until all below it is gone.
  lemma TableWhole(end: u64, r: Ram, root: nat, a: Ram, b: Ram, sp: Space, n: Node, i: nat)
    requires SpaceOk(end, r, root, sp) && Has(sp, n) && n.level < 4 && i <= ENTRYSZ
    requires Whole(r, a, sp, n) && Freed(end, a, b, Below(sp, n, i))
    ensures var f := FrameAt(sp, n); f < NFRAMES && b.m[f] == r.m[f] && f !in b.free
  {
    var f := FrameAt(sp, n);
    assert Under(n, n) && HeldUnder(sp, n, f);
    if f in Below(sp, n, i) {
      var j := BelowHeld(sp, n, i, f);
      TableApart(end, r, root, sp, n, j);
    }
    FreedMembers(end, a, b, Below(sp, n, i), f);
  }

  lemma HasManaged(end: u64, r: Ram, root: nat, sp: Space, n: Node)
    requires SpaceOk(end, r, root, sp) && Has(sp, n)
    ensures Managed(end, FrameAt(sp, n))
  {
    if n.level <= 3 {
      assert NodeOk(end, r, sp.t, n);
    } else {
      assert PageOk(end, r, sp, n.x);
    }
  }

  lemma TableOfSpace(end: u64, r: Ram, root: nat, sp: Space, n: Node, i: nat, e: u64)
    requires SpaceOk(end, r, root, sp) && n in sp.t.tabs && n.level < 3 && i < ENTRYSZ && sp.t.tabs[n] < NFRAMES
    requires e == Word(r.m, sp.t.tabs[n], i)
    ensures e % 2 == PTE_P <==> Has(sp, Child(n, i))
    ensures Has(sp, Child(n, i)) ==> FrameAt(sp, Child(n, i)) < NFRAMES && P2V(PteAddr(e)) == Pointer(FrameAt(sp, Child(n, i)))
  {
    assert EntryOk(r, sp.t, n, i);
    if Child(n, i) in sp.t.tabs {
      PdeLeads(sp.t.tabs[Child(n, i)]);
    }
  }

  lemma LeafOfSpace(end: u64, r: Ram, root: nat, sp: Space, n: Node, i: nat, e: u64)
    requires SpaceOk(end, r, root, sp) && n in sp.t.tabs && n.level == 3 && i < ENTRYSZ && sp.t.tabs[n] < NFRAMES
    requires e == Word(r.m, sp.t.tabs[n], i)
    ensures e % 2 == PTE_P <==> Has(sp, Child(n, i))
    ensures Has(sp, Child(n, i)) ==> FrameAt(sp, Child(n, i)) < NFRAMES && P2V(PteAddr(e)) == Pointer(FrameAt(sp, Child(n, i)))
  {
    var k := Child(n, i).x;
    assert On(3, k) == n && k % ENTRYSZ == i;
    assert Look(r, sp.t, k) == e;
    if k in sp.pg {
      assert PageOk(end, r, sp, k);
    }
  }

  // An entry of a table is valid exactly if there is a child, and then points to it.
  lemma EntryOfSpace(end: u64, r: Ram, root: nat, sp: Space, n: Node, i: nat)
    requires SpaceOk(end, r, root, sp) && Has(sp, n) && n.level < 4 && i < ENTRYSZ && FrameAt(sp, n) < NFRAMES
    ensures var e := Word(r.m, FrameAt(sp, n), i);
            && (e % 2 == PTE_P <==> Has(sp, Child(n, i)))
            && (Has(sp, Child(n, i)) ==> FrameAt(sp, Child(n, i)) < NFRAMES && P2V(PteAddr(e)) == Pointer(FrameAt(sp, Child(n, i))))
  {
    var e := Word(r.m, FrameAt(sp, n), i);
    if n.level < 3 {
      TableOfSpace(end, r, root, sp, n, i, e);
    } else {
      LeafOfSpace(end, r, root, sp, n, i, e);
    }
  }

  // A call of vm_free on node n, whose subtree is as in r, began at a.
  ghost predicate FreeCall(end: u64, r: Ram, root: nat, a: Ram, sp: Space, n: Node, level: int, pgdir: u64) {
    match sp
    case Space(_, _, _) =>
      && SpaceOk(end, r, root, sp) && Has(sp, n) && n.level == 4 - level && 0 <= level <= 4
      && Whole(r, a, sp, n) && FrameAt(sp, n) < NFRAMES && pgdir == Pointer(FrameAt(sp, n))
  }

  // It has come to entry i.
  ghost predicate FreedTo(end: u64, a: Ram, b: Ram, sp: Space, n: Node, i: nat) {
    match sp
    case Space(_, _, _) => n.level < 4 && i <= ENTRYSZ && Freed(end, a, b, Below(sp, n, i))
  }

  ghost predicate FreedAll(end: u64, a: Ram, b: Ram, sp: Space, n: Node) {
    match sp
    case Space(_, _, _) => Has(sp, n) && Freed(end, a, b, Order(sp, n))
  }

  lemma FreedToFirst(end: u64, r: Ram, root: nat, a: Ram, sp: Space, n: Node, level: int, pgdir: u64)
    requires RamOk(end, a) && FreeCall(end, r, root, a, sp, n, level, pgdir) && level > 0
    ensures FreedTo(end, a, a, sp, n, 0)
  {
    FreedNone(end, a);
  }

  /** Gives back the subtree of a table, or a data page (level 0): all its frames and no others,
      each once. The panic for a misaligned directory cannot happen. */
  method VmFree(mc: Machine, pgdir: u64, level: int, ghost r: Ram, ghost root: nat, ghost sp: Space, ghost n: Node)
    returns (panicked: bool)
    requires mc.Valid() && FreeCall(mc.end, r, root, mc.R(), sp, n, level, pgdir)
    modifies mc, mc.frames
    ensures mc.Valid() && !panicked && FreedAll(mc.end, old(mc.R()), mc.R(), sp, n)
    decreases level, 2
  {
    panicked := pgdir % PGSIZE != 0;
    if !panicked {
      if level == 0 {
        panicked := FreePage(mc, pgdir, r, root, sp, n);
      } else {
        panicked := FreeTable(mc, pgdir, level, r, root, sp, n);
      }
    }
  }

  // The loop over the entries, and the table itself.
  method FreeTable(mc: Machine, pgdir: u64, level: int, ghost r: Ram, ghost root: nat, ghost sp: Space, ghost n: Node)
    returns (panicked: bool)
    requires mc.Valid() && FreeCall(mc.end, r, root, mc.R(), sp, n, level, pgdir) && level > 0
    modifies mc, mc.frames
    ensures mc.Valid() && !panicked && FreedAll(mc.end, old(mc.R()), mc.R(), sp, n)
    decreases level, 1
  {
    ghost var a := mc.R();
    panicked := FreeEntries(mc, pgdir, level, r, root, a, sp, n);
    ghost var b := mc.R();
    TableLast(mc.end, r, root, a, b, sp, n, level, pgdir);
    panicked := mc.Kfree(pgdir);
  }

  method FreeEntries(mc: Machine, pgdir: u64, level: int, ghost r: Ram, ghost root: nat, ghost a: Ram, ghost sp: Space, ghost n: Node)
    returns (panicked: bool)
    requires mc.Valid() && mc.R() == a && FreeCall(mc.end, r, root, a, sp, n, level, pgdir) && level > 0
    modifies mc, mc.frames
    ensures mc.Valid() && !panicked && FreedTo(mc.end, a, mc.R(), sp, n, ENTRYSZ)
    decreases level, 0, ENTRYSZ + 1
  {
    hide FreedTo;
    FreedToFirst(mc.end, r, root, a, sp, n, level, pgdir);
    panicked := false;
    var i := 0;
    while i < ENTRYSZ
      invariant i <= ENTRYSZ && mc.Valid() && !panicked && FreedTo(mc.end, a, mc.R(), sp, n, i)
    {
      panicked := FreeEntry(mc, pgdir, level, i, r, root, a, sp, n);
      i := i + 1;
    }
  }

  lemma TableLast(end: u64, r: Ram, root: nat, a: Ram, b: Ram, sp: Space, n: Node, level: int, pgdir: u64)
    requires FreeCall(end, r, root, a, sp, n, level, pgdir) && FreedTo(end, a, b, sp, n, ENTRYSZ)
    ensures Freeable(end, pgdir) && FrameOf(pgdir) !in b.free && FreedAll(end, a, Given(b, FrameOf(pgdir)), sp, n)
  {
    var f := FrameAt(sp, n);
    TableWhole(end, r, root, a, b, sp, n, ENTRYSZ);
    HasManaged(end, r, root, sp, n);
    FreeableIsManaged(end, pgdir);
    FreedOne(end, b, f);
    FreedMore(end, a, b, Given(b, f), Below(sp, n, ENTRYSZ), [f]);
  }

  // A data page.
  method FreePage(mc: Machine, pgdir: u64, ghost r: Ram, ghost root: nat, ghost sp: Space, ghost n: Node)
    returns (panicked: bool)
    requires mc.Valid() && FreeCall(mc.end, r, root, mc.R(), sp, n, 0, pgdir)
    modifies mc, mc.frames
    ensures mc.Valid() && !panicked && FreedAll(mc.end, old(mc.R()), mc.R(), sp, n)
  {
    ghost var f := FrameAt(sp, n);
    assert Under(n, n) && HeldUnder(sp, n, f);
    HasManaged(mc.end, r, root, sp, n);
    FreeableIsManaged(mc.end, pgdir);
    FreedOne(mc.end, mc.R(), f);
    panicked := mc.Kfree(pgdir);
  }

  // A valid entry leads to a child, whose call may begin; an invalid one to none.
  lemma EntryCall(end: u64, r: Ram, root: nat, a: Ram, b: Ram, sp: Space, n: Node, level: int, pgdir: u64, i: nat, e: u64)
    requires FreeCall(end, r, root, a, sp, n, level, pgdir) && FreedTo(end, a, b, sp, n, i) && i < ENTRYSZ
    requires e == Word(b.m, FrameAt(sp, n), i)
    ensures e % 2 == PTE_P ==> FreeCall(end, r, root, b, sp, Child(n, i), level - 1, P2V(PteAddr(e)))
    ensures e % 2 != PTE_P ==> FreedTo(end, a, b, sp, n, i + 1)
  {
    TableWhole(end, r, root, a, b, sp, n, i);
    EntryOfSpace(end, r, root, sp, n, i);
    if e % 2 == PTE_P {
      ChildWhole(end, r, root, a, b, sp, n, i);
    } else {
      assert Below(sp, n, i + 1) == Below(sp, n, i);
    }
  }

  lemma EntryFreed(end: u64, a: Ram, b: Ram, c: Ram, sp: Space, n: Node, i: nat)
    requires FreedTo(end, a, b, sp, n, i) && i < ENTRYSZ && FreedAll(end, b, c, sp, Child(n, i))
    ensures FreedTo(end, a, c, sp, n, i + 1)
  {
    FreedMore(end, a, b, c, Below(sp, n, i), Order(sp, Child(n, i)));
  }

  // One round of the loop.
  method FreeEntry(mc: Machine, pgdir: u64, level: int, i: nat, ghost r: Ram, ghost root: nat, ghost a: Ram, ghost sp: Space, ghost n: Node)
    returns (panicked: bool)
    requires mc.Valid() && FreeCall(mc.end, r, root, a, sp, n, level, pgdir) && level > 0 && i < ENTRYSZ
    requires FreedTo(mc.end, a, mc.R(), sp, n, i)
    modifies mc, mc.frames
    ensures mc.Valid() && !panicked && FreedTo(mc.end, a, mc.R(), sp, n, i + 1)
    decreases level, 0, 0
  {
    ghost var b := mc.R();
    panicked := false;
    var e := mc.Load(pgdir + 8 * i, FrameAt(sp, n), i);
    EntryCall(mc.end, r, root, a, b, sp, n, level, pgdir, i, e);
    if e % 2 == PTE_P {
      panicked := VmFree(mc, P2V(PteAddr(e)), level - 1, r, root, sp, Child(n, i));
      EntryFreed(mc.end, a, b, mc.R(), sp, n, i);
    }
  }

  /** vm_free(pgdir, 4): the free list has gained exactly the frames the space owned, each once, and
      all other memory is as before. */
  method FreeSpace(mc: Machine, pgdir: u64, ghost root: nat, ghost sp: Space) returns (panicked: bool)
    requires mc.Valid() && SpaceOk(mc.end, mc.R(), root, sp) && root < NFRAMES && pgdir == Pointer(root)
    modifies mc, mc.frames
    ensures mc.Valid() && !panicked
    ensures NoDup(mc.free) && mc.free == Reverse(Order(sp, Node(0, 0))) + old(mc.free)
    ensures forall f: nat :: f in mc.free <==> Owned(sp, f) || f in old(mc.free)
    ensures forall f: nat | f < NFRAMES && !Owned(sp, f) :: mc.frames[f] == old(mc.frames[f])
  {
    ghost var a := mc.R();
    WholeAtFirst(mc.end, a, root, sp, Node(0, 0));
    assert FreeCall(mc.end, a, root, a, sp, Node(0, 0), 4, pgdir);
    panicked := VmFree(mc, pgdir, 4, a, root, sp, Node(0, 0));
    forall f: nat
      ensures f in Order(sp, Node(0, 0)) <==> Owned(sp, f)
      ensures f in mc.free <==> Owned(sp, f) || f in a.free
    {
      OrderIsOwned(mc.end, a, root, sp, f);
      FreedMembers(mc.end, a, mc.R(), Order(sp, Node(0, 0)), f);
    }
    assert mc.R().m == mc.frames[..] && a.m == old(mc.frames[..]);
  }

  lemma WholeAtFirst(end: u64, r: Ram, root: nat, sp: Space, n: Node)
    requires SpaceOk(end, r, root, sp)
    ensures Whole(r, r, sp, n)
  {
    forall f: nat | HeldUnder(sp, n, f)
      ensures f < NFRAMES && f !in r.free
    {
      var u :| Has(sp, u) && FrameAt(sp, u) == f;
      if u.level <= 3 {
        assert NodeOk(end, r, sp.t, u);
      } else {
        assert PageOk(end, r, sp, u.x);
      }
    }
  }
}
