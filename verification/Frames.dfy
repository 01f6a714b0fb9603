/** The page frame allocator (kern/kalloc.c): a free list threaded through the free frames. */
module Frames {
  import opened Limits

  const PGSIZE := 4096
  const KERNBASE := 0xFFFF_0000_0000_0000
  const PHYSTOP := 0x3F00_0000
  const NFRAMES := PHYSTOP / PGSIZE
  const ENTRYSZ := 512

  // memset(v, 1, PGSIZE), seen as a word.
  const JUNK: u64 := 0x0101_0101_0101_0101

  type Page = p: seq<u64> | |p| == ENTRYSZ witness seq(ENTRYSZ, _ => 0)

  // Physical memory: frames of 512 64-bit words.
  type Mem = m: seq<Page> | |m| == NFRAMES witness seq<Page>(NFRAMES, _ => Fill(0))

  function Fill(v: u64): Page { seq(ENTRYSZ, _ => v) }

  function V2P(a: u64): u64 { (a - KERNBASE) % TWO64 }

  function P2V(a: u64): u64 { (a + KERNBASE) % TWO64 }

  // The kernel's pointer to frame f, and back.
  function Pointer(f: nat): (a: u64)
    requires f < NFRAMES
    ensures a != 0 && a % PGSIZE == 0 && V2P(a) == f * PGSIZE
  {
    KERNBASE + f * PGSIZE
  }

  function FrameOf(a: u64): nat { V2P(a) / PGSIZE }

  function Word(m: Mem, f: nat, i: nat): u64
    requires f < NFRAMES && i < ENTRYSZ
  {
    m[f][i]
  }

  function SetWord(m: Mem, f: nat, i: nat, v: u64): Mem
    requires f < NFRAMES && i < ENTRYSZ
  {
    m[f := m[f][i := v]]
  }

  // kfree's test of its argument: aligned, above the kernel, below the top of memory.
  predicate Freeable(end: u64, v: u64): (ok: bool)
    ensures ok ==> FrameOf(v) < NFRAMES
  {
    v % PGSIZE == 0 && v >= end && V2P(v) < PHYSTOP
  }

  // A frame that kfree accepts.
  predicate Managed(end: u64, f: nat) {
    f < NFRAMES && Pointer(f) >= end
  }

  lemma FreeableIsManaged(end: u64, v: u64)
    requires end >= KERNBASE
    ensures Freeable(end, v) ==> Managed(end, FrameOf(v)) && v == Pointer(FrameOf(v))
    ensures forall f: nat | Managed(end, f) :: Freeable(end, Pointer(f)) && FrameOf(Pointer(f)) == f
  {
  }

  // Memory, the head of the free list, and the frames on it in order.
  datatype Ram = Ram(m: Mem, head: u64, free: seq<nat>)

  ghost predicate NoDup(fs: seq<nat>) {
    fs != [] ==> fs[0] !in fs[1..] && NoDup(fs[1..])
  }

  // Following the links from head passes the frames fs.
  ghost predicate Threaded(m: Mem, head: u64, fs: seq<nat>)
    decreases |fs|
  {
    if fs == [] then head == 0
    else fs[0] < NFRAMES && head == Pointer(fs[0]) && Threaded(m, Word(m, fs[0], 0), fs[1..])
  }

  ghost predicate RamOk(end: u64, r: Ram) {
    match r
    case Ram(m, head, free) =>
      end >= KERNBASE && (forall f | f in free :: Managed(end, f)) && NoDup(free) && Threaded(m, head, free)
  }

  lemma {:induction false} ThreadedKeeps(m: Mem, q: Mem, head: u64, fs: seq<nat>)
    requires Threaded(m, head, fs) && forall f | f in fs && f < NFRAMES :: q[f] == m[f]
    ensures Threaded(q, head, fs)
    decreases |fs|
  {
    if fs != [] {
      ThreadedKeeps(m, q, Word(m, fs[0], 0), fs[1..]);
    }
  }

  // Only free frames and those in fs may differ.
  ghost predicate Untouched(a: Ram, b: Ram, fs: set<nat>) {
    forall f: nat | f < NFRAMES && f !in fs :: b.m[f] == a.m[f]
  }

  function Taken(r: Ram): Ram
    requires r.free != [] && r.free[0] < NFRAMES
  {
    Ram(r.m, Word(r.m, r.free[0], 0), r.free[1..])
  }

  lemma TakenOk(end: u64, r: Ram)
    requires RamOk(end, r) && r.free != []
    ensures RamOk(end, Taken(r)) && r.free[0] !in Taken(r).free
  {
  }

  function Given(r: Ram, f: nat): Ram
    requires f < NFRAMES
  {
    Ram(SetWord(r.m[f := Fill(JUNK)], f, 0, r.head), Pointer(f), [f] + r.free)
  }

  lemma GivenOk(end: u64, r: Ram, f: nat)
    requires RamOk(end, r) && Managed(end, f) && f !in r.free
    ensures RamOk(end, Given(r, f)) && Untouched(r, Given(r, f), {f})
    ensures forall i | 1 <= i < ENTRYSZ :: Word(Given(r, f).m, f, i) == 0x0101_0101_0101_0101
  {
    var q := Given(r, f);
    assert q.free[1..] == r.free;
    ThreadedKeeps(r.m, q.m, r.head, r.free);
  }

  // Writing a frame that is not free leaves the free list alone.
  lemma FillOk(end: u64, r: Ram, f: nat, v: u64)
    requires RamOk(end, r) && f < NFRAMES && f !in r.free
    ensures RamOk(end, Ram(r.m[f := Fill(v)], r.head, r.free))
  {
    ThreadedKeeps(r.m, r.m[f := Fill(v)], r.head, r.free);
  }

  lemma WriteOk(end: u64, r: Ram, f: nat, i: nat, v: u64)
    requires RamOk(end, r) && f < NFRAMES && i < ENTRYSZ && f !in r.free
    ensures RamOk(end, Ram(SetWord(r.m, f, i, v), r.head, r.free))
  {
    ThreadedKeeps(r.m, SetWord(r.m, f, i, v), r.head, r.free);
  }

  class Machine {
    const end: u64
    const frames: array<Page>
    var freeList: u64
    ghost var free: seq<nat>

    constructor (end: u64, frames: array<Page>)
      requires frames.Length == NFRAMES && end >= KERNBASE
      ensures this.end == end && this.frames == frames && Valid() && free == []
    {
      this.end := end;
      this.frames := frames;
      freeList := 0;
      free := [];
    }

    ghost function R(): Ram
      requires frames.Length == NFRAMES
      reads this, frames
    {
      Ram(frames[..], freeList, free)
    }

    ghost predicate Valid()
      reads this, frames
    {
      frames.Length == NFRAMES && RamOk(end, R())
    }

    // *p for a pointer into frame f.
    method Load(p: u64, ghost f: nat, ghost i: nat) returns (v: u64)
      requires frames.Length == NFRAMES && f < NFRAMES && i < ENTRYSZ && p == Pointer(f) + 8 * i
      ensures v == Word(R().m, f, i)
    {
      v := frames[V2P(p) / PGSIZE][V2P(p) % PGSIZE / 8];
    }

    method Store(p: u64, ghost f: nat, ghost i: nat, v: u64)
      requires frames.Length == NFRAMES && f < NFRAMES && i < ENTRYSZ && p == Pointer(f) + 8 * i
      modifies frames
      ensures R() == old(R()).(m := SetWord(old(R()).m, f, i, v))
    {
      var k := V2P(p) / PGSIZE;
      frames[k] := frames[k][V2P(p) % PGSIZE / 8 := v];
    }

    // memset of a whole page
    method Memset(p: u64, ghost f: nat, v: u64)
      requires frames.Length == NFRAMES && f < NFRAMES && p == Pointer(f)
      modifies frames
      ensures R() == old(R()).(m := old(R()).m[f := Fill(v)])
    {
      frames[FrameOf(p)] := Fill(v);
    }

    /** Pops the head of the free list, or answers 0 when there is none. */
    method Kalloc() returns (p: u64)
      requires Valid()
      modifies this
      ensures Valid()
      ensures if old(free) == [] then p == 0 else old(free)[0] < NFRAMES && p == Pointer(old(free)[0])
      ensures R() == if old(free) == [] then old(R()) else Taken(old(R()))
    {
      p := freeList;
      if p != 0 {
        TakenOk(end, R());
        freeList := Load(p, free[0], 0);
        free := free[1..];
      }
    }

    /** Pushes a page, unless the address is none of the allocator's (then the kernel panics). */
    method Kfree(v: u64) returns (panicked: bool)
      requires Valid()
      modifies this, frames
      ensures panicked <==> !Freeable(end, v)
      ensures Valid() <==> panicked || FrameOf(v) !in old(free)
      ensures R() == if panicked then old(R()) else Given(old(R()), FrameOf(v))
    {
      FreeableIsManaged(end, v);
      panicked := v % PGSIZE != 0 || v < end || V2P(v) >= PHYSTOP;
      if !panicked {
        ghost var f := FrameOf(v);
        if f !in free {
          GivenOk(end, R(), f);
        }
        Memset(v, f, JUNK);
        Store(v, f, 0, freeList);
        freeList := v;
        free := [f] + free;
      }
    }

    /** alloc_init: every whole page between the kernel's end and the top of memory, once. */
    method FreeRange()
      requires Valid() && free == [] && end <= KERNBASE + PHYSTOP
      modifies this, frames
      ensures Valid()
      ensures forall f: nat :: f in free <==> Managed(end, f)
    {
      var p := end + (PGSIZE - 1) - (end + (PGSIZE - 1)) % PGSIZE;
      ghost var first := (p - KERNBASE) / PGSIZE;
      ghost var k := first;
      while p + PGSIZE <= KERNBASE + PHYSTOP
        invariant Valid() && p == KERNBASE + k * PGSIZE && first <= k && end <= KERNBASE + first * PGSIZE
        invariant forall f: nat :: f in free <==> first <= f < k
        decreases KERNBASE + PHYSTOP - p
      {
        PageAt(end, p, k);
        var panicked := Kfree(p);
        p := p + PGSIZE;
        k := k + 1;
      }
    }
  }

  lemma PageAt(end: u64, p: u64, k: nat)
    requires p == KERNBASE + k * PGSIZE && k < NFRAMES && end <= p
    ensures Freeable(end, p) && FrameOf(p) == k
  {
  }
}
