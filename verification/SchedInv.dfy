/** What every step of the machine keeps: who owns which lock, which process is on which CPU, and
    who will wake whom. */
module SchedInv {
  import opened Device
  import opened Sched

  // ---------- program counters that can occur ----------

  predicate IsSched(l: Point) {
    l.Loop? || l.See? || l.Go? || l.Jump? || l.Home?
  }

  function Self(l: Point): nat
    requires !IsSched(l)
  {
    l.p
  }

  predicate PointOk(np: nat, nm: nat, l: Point) {
    match l
    case Idle(p) => p < np
    case Test(p, m) => p < np && m < nm
    case Alter(p, m) => p < np && m < nm
    case Bed(p, m) => p < np && m < nm
    case Lie(p, m) => p < np && m < nm
    case Down(p, m) => p < np && m < nm
    case Nap(p) => p < np
    case Quit(p) => p < np
    case Switch(p, why) => p < np && (why.Slept? ==> why.m < nm)
    case Back(p, why) => p < np && (why.Slept? ==> why.m < nm)
    case Again(p, m) => p < np && m < nm
    case Wake(p, m, _) => p < np && m < nm
    case Look(p, m, i) => p < np && m < nm && i < np && i != p
    case Loop(_) => true
    case See(i) => i < np
    case Go(i) => i < np
    case Jump(i) => i < np
    case Home(i) => i < np
  }

  // acquire(k) leads to l.
  predicate Enters(np: nat, k: nat, l: Point) {
    match l
    case Test(_, m) => k == np + m
    case Alter(_, m) => k == np + m
    case Bed(p, _) => k == p
    case Nap(p) => k == p
    case Quit(p) => k == p
    case Look(_, _, i) => k == i
    case See(i) => k == i
    case _ => false
  }

  // release(k) leads to l.
  predicate Leaves(np: nat, nm: nat, k: nat, l: Point) {
    match l
    case Idle(_) => k < np + nm
    case Lie(_, m) => k == np + m
    case Again(p, _) => k == p
    case Wake(_, _, i) => i > 0 && k == i - 1 && k < np
    case Loop(i) => i > 0 && k == i - 1 && k < np
    case _ => false
  }

  predicate PcOk(np: nat, nm: nat, pc: PC) {
    && PointOk(np, nm, pc.l)
    && (pc.Spin? || pc.Mark? ==> Enters(np, pc.k, pc.l))
    && (pc.Drop? || pc.Free? ==> Leaves(np, nm, pc.k, pc.l))
  }

  // ---------- the invariant ----------

  predicate Shape(s: State) {
    && |s.locks| == |s.procs| + |s.mons|
    && forall c | 0 <= c < |s.cpus| :: Ready(s, c)
  }

  // Lock k is CPU c's exactly if c's pc says so, and lk->cpu names c exactly then, except just
  // after the test-and-set and just before the unlocking store.
  predicate LockOk(s: State, c: nat, k: nat)
    requires Ready(s, c) && k < |s.locks|
  {
    && (s.locks[k].owner == Some(c) <==> Owns(|s.procs|, Cur(s, c), k))
    && (s.locks[k].cpu == Some(c) <==> Shows(|s.procs|, Cur(s, c), k))
  }

  predicate LocksOk(s: State)
    requires Shape(s)
  {
    && (forall c: nat, k: nat | c < |s.cpus| && k < |s.locks| :: LockOk(s, c, k))
    && (forall k | 0 <= k < |s.locks| ::
          && (s.locks[k].locked <==> s.locks[k].owner.Some?)
          && (s.locks[k].owner.Some? ==> s.locks[k].owner.value < |s.cpus|)
          && (s.locks[k].cpu.Some? ==> s.locks[k].cpu.value < |s.cpus|))
  }

  // Off every CPU, with a saved context.
  predicate Parked(p: nat, q: Proc) {
    q.pc.At? && q.pc.l.Back? && q.pc.l.p == p
  }

  predicate Fits(q: Proc, why: Why) {
    match why
    case Slept(m) => q.state.Sleeping? && q.chan == Some(m)
    case Yielded => q.state.Runnable?
    case Exited => q.state.Zombie?
  }

  predicate SchedOk(s: State, c: nat, pc: PC, cur: Option<nat>) {
    && PcOk(|s.procs|, |s.mons|, pc) && IsSched(pc.l)
    && match pc.l
       case Go(i) =>
         && pc.At? && cur == Some(i) && s.procs[i].home == c && Parked(i, s.procs[i])
         && s.procs[i].state.Runnable? && !s.procs[i].pc.l.why.Exited?
       case Jump(i) =>
         && pc.At? && cur == Some(i) && s.procs[i].home == c && Parked(i, s.procs[i])
         && s.procs[i].state.Running? && !s.procs[i].pc.l.why.Exited?
       case Home(i) =>
         && pc.At? && cur == Some(i) && s.procs[i].home == c && Parked(i, s.procs[i])
         && !s.procs[i].state.Running?
       case _ => cur == None
  }

  predicate OnOk(s: State, c: nat, p: nat)
    requires p < |s.procs|
  {
    var q := s.procs[p];
    && PcOk(|s.procs|, |s.mons|, q.pc) && !IsSched(q.pc.l) && Self(q.pc.l) == p && q.home == c
    && (if q.pc.At? && q.pc.l.Switch? then Fits(q, q.pc.l.why) else q.state.Running?)
    && (q.pc.At? && q.pc.l.Down? ==> q.chan == Some(q.pc.l.m))
    && (q.pc.l.Back? ==> q.pc.At? && !q.pc.l.why.Exited?)
    && (q.pc.l.Switch? ==> q.pc.At?)
  }

  predicate CpuOk(s: State, c: nat)
    requires Ready(s, c)
  {
    var u := s.cpus[c];
    match u.run
    case None => SchedOk(s, c, u.sched, u.cur)
    case Some(p) => u.cur == Some(p) && u.sched == At(Home(p)) && OnOk(s, c, p)
  }

  predicate OnCpu(s: State, p: nat)
    requires p < |s.procs|
  {
    s.procs[p].home < |s.cpus| && s.cpus[s.procs[p].home].run == Some(p)
  }

  predicate ProcOk(s: State, p: nat)
    requires p < |s.procs|
  {
    var q := s.procs[p];
    OnCpu(s, p) ||
      (&& Parked(p, q) && PointOk(|s.procs|, |s.mons|, q.pc.l)
       && (q.state.Sleeping? ==> q.pc.l.why.Slept? && q.chan == Some(q.pc.l.why.m))
       && (q.state.Runnable? ==> !q.pc.l.why.Exited?)
       && (q.state.Running? ==> q.home < |s.cpus| && s.cpus[q.home].cur == Some(p)))
  }

  // Committed to sleeping on monitor m, or asleep on it.
  predicate Waiting(q: Proc, m: nat) {
    match q.pc
    case Spin(_, Bed(_, n)) => n == m
    case Mark(_, Bed(_, n)) => n == m
    case At(Bed(_, n)) => n == m
    case Drop(_, Lie(_, n)) => n == m
    case Free(_, Lie(_, n)) => n == m
    case At(Lie(_, n)) => n == m
    case At(Down(_, n)) => n == m
    case At(Switch(_, Slept(n))) => n == m
    case At(Back(_, Slept(n))) => n == m && q.state.Sleeping?
    case _ => false
  }

  // In wakeup(m) and still to look at process q.
  predicate Waking(pc: PC, m: nat, q: nat) {
    match pc.l
    case Wake(_, n, i) => n == m && i <= q && (pc.At? || pc.Drop? || pc.Free?)
    case Look(_, n, i) => n == m && i <= q && (pc.At? || pc.Spin? || pc.Mark?)
    case _ => false
  }

  predicate WakeOk(s: State, m: nat, q: nat)
    requires Shape(s) && LocksOk(s) && m < |s.mons| && q < |s.procs|
  {
    Waiting(s.procs[q], m) && !Blocked(s.mons[m]) ==>
      var o := s.locks[|s.procs| + m].owner;
      o.Some? && Waking(Cur(s, o.value), m, q)
  }

  predicate Inv(s: State) {
    && Shape(s) && LocksOk(s)
    && (forall c: nat | c < |s.cpus| :: CpuOk(s, c))
    && (forall p: nat | p < |s.procs| :: ProcOk(s, p))
    && (forall m: nat, q: nat | m < |s.mons| && q < |s.procs| :: WakeOk(s, m, q))
  }

  lemma InitInv(s: State)
    requires Init(s)
    ensures Inv(s)
  {
    forall c: nat, k: nat | c < |s.cpus| && k < |s.locks|
      ensures LockOk(s, c, k)
    {
    }
  }

  // ---------- who is where ----------

  // No two CPUs execute, or have chosen, the same process.
  lemma OneCpu(s: State, c: nat, d: nat, p: nat)
    requires Inv(s) && c < |s.cpus| && d < |s.cpus|
    requires s.cpus[c].cur == Some(p) && s.cpus[d].cur == Some(p)
    ensures c == d
  {
    assert CpuOk(s, c) && CpuOk(s, d);
  }

  // A step of c's program counter is no step of d's.
  lemma OthersStay(s: State, c: nat, pc: PC, d: nat)
    requires Inv(s) && c < |s.cpus| && d < |s.cpus| && d != c
    ensures Ready(SetCur(s, c, pc), d) && Cur(SetCur(s, c, pc), d) == Cur(s, d)
  {
    assert Ready(s, c) && Ready(s, d) && CpuOk(s, c) && CpuOk(s, d);
    if s.cpus[c].run.Some? && s.cpus[d].run == s.cpus[c].run {
      OneCpu(s, c, d, s.cpus[c].run.value);
    }
  }

  // t differs from s, as far as CPUs and processes go, in c's program counter only.
  predicate PcStep(s: State, c: nat, pc: PC, t: State)
    requires Ready(s, c)
  {
    t.procs == SetCur(s, c, pc).procs && t.cpus == SetCur(s, c, pc).cpus
    && |t.mons| == |s.mons| && |t.locks| == |s.locks|
  }

  lemma PcStepShape(s: State, c: nat, pc: PC, t: State)
    requires Inv(s) && c < |s.cpus| && Ready(s, c) && PcStep(s, c, pc, t)
    ensures Shape(t) && Cur(t, c) == pc
    ensures forall d: nat | d < |s.cpus| && d != c :: Cur(t, d) == Cur(s, d)
  {
    forall d: nat | d < |s.cpus|
      ensures Ready(t, d) && (d != c ==> Cur(t, d) == Cur(s, d))
    {
      assert Ready(s, d);
      if d != c {
        OthersStay(s, c, pc, d);
      }
    }
  }

  // If c's new place suits c, then everyone else's still suits them.
  lemma PcStepPlaces(s: State, c: nat, pc: PC, t: State)
    requires Inv(s) && c < |s.cpus| && Ready(s, c) && PcStep(s, c, pc, t)
    requires Ready(t, c) && CpuOk(t, c)
    ensures forall d: nat | d < |t.cpus| :: Ready(t, d) && CpuOk(t, d)
    ensures forall p: nat | p < |t.procs| :: ProcOk(t, p)
  {
    hide Holds, Owns, Shows, LockOk, LocksOk, Waiting, Waking, WakeOk;
    assert CpuOk(s, c);
    forall d: nat | d < |t.cpus|
      ensures Ready(t, d) && CpuOk(t, d)
    {
      assert Ready(s, d) && CpuOk(s, d);
    }
    forall p: nat | p < |t.procs|
      ensures ProcOk(t, p)
    {
      assert ProcOk(s, p);
    }
  }

  // ---------- lock steps ----------

  // c wins, marks, unmarks or gives back lock k, on the way to its new place.
  lemma LocksMove(s: State, c: nat, k: nat, v: Lock, pc: PC, t: State)
    requires Inv(s) && c < |s.cpus| && Ready(s, c) && k < |s.locks|
    requires PcStep(s, c, pc, t) && t.locks == s.locks[k := v]
    requires s.locks[k].owner == None || s.locks[k].owner == Some(c)
    requires v.owner == None || v.owner == Some(c)
    requires v.cpu == None || v.cpu == Some(c)
    requires v.locked <==> v.owner.Some?
    requires forall j: nat | j < |s.locks| ::
               if j == k then (v.owner == Some(c) <==> Owns(|s.procs|, pc, k)) && (v.cpu == Some(c) <==> Shows(|s.procs|, pc, k))
               else Owns(|s.procs|, pc, j) == Owns(|s.procs|, Cur(s, c), j) && Shows(|s.procs|, pc, j) == Shows(|s.procs|, Cur(s, c), j)
    ensures Shape(t) && LocksOk(t)
  {
    PcStepShape(s, c, pc, t);
    forall d: nat, j: nat | d < |s.cpus| && j < |s.locks|
      ensures LockOk(t, d, j)
    {
      assert LockOk(s, d, j) && Ready(t, d);
    }
  }

  lemma LockStepLocks(s: State, c: nat)
    requires Inv(s) && LockEnabled(s, c)
    ensures Shape(LockStep(s, c)) && LocksOk(LockStep(s, c))
  {
    hide Waiting, Waking, WakeOk, ProcOk, OnCpu, Fits, Blocked;
    var t := LockStep(s, c);
    assert CpuOk(s, c);
    var pc := Cur(s, c);
    assert LockOk(s, c, pc.k);
    if s.locks[pc.k].cpu.Some? {
      assert LockOk(s, s.locks[pc.k].cpu.value, pc.k);
    }
    LocksMove(s, c, pc.k, t.locks[pc.k], Cur(t, c), t);
  }

  lemma LockStepPlaces(s: State, c: nat)
    requires Inv(s) && LockEnabled(s, c)
    ensures var t := LockStep(s, c);
            && (forall d: nat | d < |t.cpus| :: Ready(t, d) && CpuOk(t, d))
            && (forall p: nat | p < |t.procs| :: ProcOk(t, p))
  {
    hide Holds, Owns, Shows, LockOk, LocksOk, Waiting, Waking, WakeOk;
    assert CpuOk(s, c);
    PcStepPlaces(s, c, Cur(LockStep(s, c), c), LockStep(s, c));
  }

  // A lock operation neither starts nor ends a wait; the lock a waker gives back is free of waiters.
  lemma LockStepWake(s: State, c: nat, m: nat, q: nat)
    requires Inv(s) && LockEnabled(s, c) && m < |s.mons| && q < |s.procs|
    requires Shape(LockStep(s, c)) && LocksOk(LockStep(s, c))
    ensures WakeOk(LockStep(s, c), m, q)
  {
    hide ProcOk, OnCpu, Parked, Fits;
    var t := LockStep(s, c);
    assert CpuOk(s, c) && WakeOk(s, m, q);
    PcStepShape(s, c, Cur(t, c), t);
    assert Waiting(t.procs[q], m) == Waiting(s.procs[q], m);
    assert LockOk(s, c, |s.procs| + m);
  }

  lemma LockStepInv(s: State, c: nat)
    requires Inv(s) && LockEnabled(s, c)
    ensures Inv(LockStep(s, c))
  {
    LockStepLocks(s, c);
    LockStepPlaces(s, c);
    forall m: nat, q: nat | m < |s.mons| && q < |s.procs|
      ensures WakeOk(LockStep(s, c), m, q)
    {
      LockStepWake(s, c, m, q);
    }
  }

  // ---------- steps of the program counter ----------

  // The step leaves all locks alone, and c owns after it what it owned before.
  predicate LocksKeep(s: State, c: nat, t: State)
    requires Ready(s, c) && Ready(t, c)
  {
    && t.locks == s.locks && |t.procs| == |s.procs| && |t.cpus| == |s.cpus| && |t.mons| == |s.mons|
    && (forall d: nat | d < |s.cpus| && d != c :: Ready(s, d) && Ready(t, d) && Cur(t, d) == Cur(s, d))
    && (forall k: nat | k < |s.locks| ::
          && Owns(|s.procs|, Cur(t, c), k) == Owns(|s.procs|, Cur(s, c), k)
          && Shows(|s.procs|, Cur(t, c), k) == Shows(|s.procs|, Cur(s, c), k))
  }

  lemma LocksKept(s: State, c: nat, t: State)
    requires Inv(s) && c < |s.cpus| && Ready(s, c) && Ready(t, c) && LocksKeep(s, c, t)
    ensures Shape(t) && LocksOk(t)
  {
    assert forall d: nat | d < |t.cpus| :: Ready(t, d);
    forall d: nat, k: nat | d < |t.cpus| && k < |t.locks|
      ensures LockOk(t, d, k)
    {
      assert LockOk(s, d, k);
    }
  }

  lemma MovedOwns(s: State, c: nat, ch: Choice, pc: PC, k: nat)
    requires |s.locks| == |s.procs| + |s.mons| && AtPoint(s, c) && Moved(s, c, ch) == Some(pc) && k < |s.locks|
    requires PcOk(|s.procs|, |s.mons|, Cur(s, c))
    ensures Owns(|s.procs|, pc, k) == Owns(|s.procs|, Cur(s, c), k) && Shows(|s.procs|, pc, k) == Shows(|s.procs|, Cur(s, c), k)
  {
  }

  lemma MovedLocks(s: State, c: nat, ch: Choice)
    requires Inv(s) && AtPoint(s, c) && Moved(s, c, ch).Some?
    ensures var t := SetCur(s, c, Moved(s, c, ch).value); Shape(t) && LocksOk(t)
  {
    var pc := Moved(s, c, ch).value;
    var t := SetCur(s, c, pc);
    assert CpuOk(s, c);
    PcStepShape(s, c, pc, t);
    forall k: nat | k < |s.locks|
      ensures Owns(|s.procs|, pc, k) == Owns(|s.procs|, Cur(s, c), k) && Shows(|s.procs|, pc, k) == Shows(|s.procs|, Cur(s, c), k)
    {
      MovedOwns(s, c, ch, pc, k);
    }
    LocksKept(s, c, t);
  }

  // Such a step stays with the same process or scheduler and enters none of the delicate places.
  lemma MovedPoint(s: State, c: nat, ch: Choice, pc: PC)
    requires |s.locks| == |s.procs| + |s.mons| && AtPoint(s, c) && Moved(s, c, ch) == Some(pc)
    ensures IsSched(pc.l) == IsSched(Cur(s, c).l) && (!IsSched(pc.l) ==> Self(pc.l) == Self(Cur(s, c).l))
    ensures !pc.l.Switch? && !pc.l.Down? && !pc.l.Back? && !pc.l.Go? && !pc.l.Jump? && !pc.l.Home?
    ensures !Cur(s, c).l.Switch? && !Cur(s, c).l.Go? && !Cur(s, c).l.Jump? && !Cur(s, c).l.Home?
  {
  }

  lemma MovedPc(s: State, c: nat, ch: Choice, pc: PC)
    requires |s.locks| == |s.procs| + |s.mons| && AtPoint(s, c) && Moved(s, c, ch) == Some(pc)
    requires PcOk(|s.procs|, |s.mons|, Cur(s, c))
    ensures PcOk(|s.procs|, |s.mons|, pc)
  {
    hide Owns, Shows, Holds;
    match Cur(s, c).l
    case Idle(p) =>
    case Test(p, m) =>
    case Wake(p, m, i) =>
    case _ =>
  }

  lemma MovedPlace(s: State, c: nat, ch: Choice, t: State)
    requires Inv(s) && AtPoint(s, c) && Moved(s, c, ch).Some? && t == SetCur(s, c, Moved(s, c, ch).value)
    ensures Ready(t, c) && CpuOk(t, c)
  {
    assert CpuOk(s, c);
    MovedPc(s, c, ch, Moved(s, c, ch).value);
    MovedPoint(s, c, ch, Moved(s, c, ch).value);
  }

  lemma MovedPlaces(s: State, c: nat, ch: Choice)
    requires Inv(s) && AtPoint(s, c) && Moved(s, c, ch).Some?
    ensures var t := SetCur(s, c, Moved(s, c, ch).value);
            && (forall d: nat | d < |t.cpus| :: Ready(t, d) && CpuOk(t, d))
            && (forall p: nat | p < |t.procs| :: ProcOk(t, p))
  {
    MovedPlace(s, c, ch, SetCur(s, c, Moved(s, c, ch).value));
    PcStepPlaces(s, c, Moved(s, c, ch).value, SetCur(s, c, Moved(s, c, ch).value));
  }

  /** A waker that holds process i's lock and does not find it asleep on m can pass on: i is not on
      its way to sleep on m either. */
  lemma PassedByIsAwake(s: State, c: nat, p: nat, m: nat, i: nat)
    requires Inv(s) && AtPoint(s, c) && Cur(s, c) == At(Look(p, m, i))
    requires i < |s.procs| && m < |s.mons|
    requires !(s.procs[i].state.Sleeping? && s.procs[i].chan == Some(m))
    ensures !Waiting(s.procs[i], m)
  {
    assert CpuOk(s, c) && ProcOk(s, i);
    assert LockOk(s, c, i) && LockOk(s, c, |s.procs| + m);
    if OnCpu(s, i) {
      var d := s.procs[i].home;
      assert Ready(s, d) && CpuOk(s, d) && LockOk(s, d, i) && LockOk(s, d, |s.procs| + m);
    }
  }

  lemma MovedWake(s: State, c: nat, ch: Choice, m: nat, q: nat)
    requires Inv(s) && AtPoint(s, c) && Moved(s, c, ch).Some? && m < |s.mons| && q < |s.procs|
    requires Shape(SetCur(s, c, Moved(s, c, ch).value)) && LocksOk(SetCur(s, c, Moved(s, c, ch).value))
    ensures WakeOk(SetCur(s, c, Moved(s, c, ch).value), m, q)
  {
    hide ProcOk, OnCpu, Parked, Fits;
    var pc := Moved(s, c, ch).value;
    var t := SetCur(s, c, pc);
    assert CpuOk(s, c) && WakeOk(s, m, q);
    PcStepShape(s, c, pc, t);
    assert LockOk(s, c, |s.procs| + m);
    if Cur(s, c).l.Look? && Cur(s, c).l.m == m {
      PassedByIsAwake(s, c, Cur(s, c).l.p, m, Cur(s, c).l.i);
    }
  }

  lemma MovedInv(s: State, c: nat, ch: Choice)
    requires Inv(s) && AtPoint(s, c) && Moved(s, c, ch).Some?
    ensures Inv(SetCur(s, c, Moved(s, c, ch).value))
  {
    MovedLocks(s, c, ch);
    MovedPlaces(s, c, ch);
    forall m: nat, q: nat | m < |s.mons| && q < |s.procs|
      ensures WakeOk(SetCur(s, c, Moved(s, c, ch).value), m, q)
    {
      MovedWake(s, c, ch, m, q);
    }
  }

  // ---------- steps of a monitor ----------

  lemma MonStepSame(s: State, c: nat, ch: Choice, t: State)
    requires Inv(s) && AtPoint(s, c) && MonStep(s, c, ch) == Some(t)
    ensures t.locks == s.locks && Ready(t, c) && PcStep(s, c, Cur(t, c), t)
    ensures Shape(t) && LocksOk(t)
  {
    assert CpuOk(s, c);
    PcStepShape(s, c, Cur(t, c), t);
    LocksKept(s, c, t);
  }

  lemma MonStepPlaces(s: State, c: nat, ch: Choice, t: State)
    requires Inv(s) && AtPoint(s, c) && MonStep(s, c, ch) == Some(t)
    ensures forall d: nat | d < |t.cpus| :: Ready(t, d) && CpuOk(t, d)
    ensures forall p: nat | p < |t.procs| :: ProcOk(t, p)
  {
    assert CpuOk(s, c);
    MonStepSame(s, c, ch, t);
    PcStepPlaces(s, c, Cur(t, c), t);
  }

  // Whoever makes the test pass has all of wakeup before it; whoever passes finds nobody waiting.
  lemma MonStepWake(s: State, c: nat, ch: Choice, t: State, m: nat, q: nat)
    requires Inv(s) && AtPoint(s, c) && MonStep(s, c, ch) == Some(t) && m < |s.mons| && q < |s.procs|
    requires Shape(t) && LocksOk(t)
    ensures WakeOk(t, m, q)
  {
    hide ProcOk, OnCpu, Parked, Fits;
    assert CpuOk(s, c) && WakeOk(s, m, q);
    MonStepSame(s, c, ch, t);
    PcStepShape(s, c, Cur(t, c), t);
    assert LockOk(s, c, |s.procs| + m);
  }

  lemma MonStepInv(s: State, c: nat, ch: Choice, t: State)
    requires Inv(s) && AtPoint(s, c) && MonStep(s, c, ch) == Some(t)
    ensures Inv(t)
  {
    MonStepSame(s, c, ch, t);
    MonStepPlaces(s, c, ch, t);
    forall m: nat, q: nat | m < |s.mons| && q < |s.procs|
      ensures WakeOk(t, m, q)
    {
      MonStepWake(s, c, ch, t, m, q);
    }
  }

  // ---------- steps of a process under its lock ----------

  // c owns process i's lock: no other CPU is switching away from i or choosing it.
  lemma ProcStepOwns(s: State, c: nat, t: State, k: nat)
    requires Inv(s) && AtPoint(s, c) && ProcStep(s, c) == Some(t) && k < |s.locks|
    ensures Ready(t, c) && |t.procs| == |s.procs| && |t.cpus| == |s.cpus| && t.locks == s.locks && t.mons == s.mons
    ensures Owns(|s.procs|, Cur(t, c), k) == Owns(|s.procs|, Cur(s, c), k)
    ensures Shows(|s.procs|, Cur(t, c), k) == Shows(|s.procs|, Cur(s, c), k)
  {
    hide Waiting, Waking, WakeOk, ProcOk, OnCpu, Fits, Blocked;
    assert CpuOk(s, c);
  }

  lemma ProcStepOthers(s: State, c: nat, t: State, d: nat)
    requires Inv(s) && AtPoint(s, c) && ProcStep(s, c) == Some(t) && d < |s.cpus| && d != c
    ensures Ready(s, d) && Ready(t, d) && Cur(t, d) == Cur(s, d)
  {
    assert Ready(s, d);
    OthersStay(s, c, Cur(s, c), d);
    if s.cpus[d].run.Some? && s.cpus[c].run == s.cpus[d].run {
      assert CpuOk(s, c) && CpuOk(s, d);
      OneCpu(s, c, d, s.cpus[d].run.value);
    }
  }

  lemma ProcStepSame(s: State, c: nat, t: State)
    requires Inv(s) && AtPoint(s, c) && ProcStep(s, c) == Some(t)
    ensures t.locks == s.locks && t.mons == s.mons
    ensures Shape(t) && LocksOk(t)
    ensures forall d: nat | d < |s.cpus| && d != c :: Cur(t, d) == Cur(s, d)
  {
    assert Ready(t, c) && |t.procs| == |s.procs| && |t.cpus| == |s.cpus| && t.locks == s.locks && t.mons == s.mons;
    forall d: nat | d < |s.cpus| && d != c
      ensures Ready(s, d) && Ready(t, d) && Cur(t, d) == Cur(s, d)
    {
      ProcStepOthers(s, c, t, d);
    }
    forall k: nat | k < |s.locks|
      ensures Owns(|s.procs|, Cur(t, c), k) == Owns(|s.procs|, Cur(s, c), k)
      ensures Shows(|s.procs|, Cur(t, c), k) == Shows(|s.procs|, Cur(s, c), k)
    {
      ProcStepOwns(s, c, t, k);
    }
    LocksKept(s, c, t);
  }

  // A process changing its own entry is on this CPU and on no other.
  lemma OwnEntryPlaces(s: State, c: nat, p: nat, q: Proc, t: State)
    requires Inv(s) && Ready(s, c) && s.cpus[c].run == Some(p)
    requires t.cpus == s.cpus && t.procs == s.procs[p := q] && |t.mons| == |s.mons| && Shape(t)
    requires CpuOk(t, c)
    ensures forall d: nat | d < |t.cpus| :: CpuOk(t, d)
    ensures forall r: nat | r < |t.procs| :: ProcOk(t, r)
  {
    hide Holds, Owns, Shows, LockOk, LocksOk, Waiting, Waking, WakeOk;
    assert CpuOk(s, c);
    forall d: nat | d < |t.cpus|
      ensures CpuOk(t, d)
    {
      assert Ready(s, d) && CpuOk(s, d);
    }
    forall r: nat | r < |t.procs|
      ensures ProcOk(t, r)
    {
      assert ProcOk(s, r);
    }
  }

  lemma OwnStepPlace(s: State, c: nat, t: State)
    requires Inv(s) && AtPoint(s, c) && ProcStep(s, c) == Some(t) && Shape(t) && s.cpus[c].run.Some?
    requires !Cur(s, c).l.Look?
    ensures Ready(t, c) && CpuOk(t, c)
    ensures var p := s.cpus[c].run.value; t.cpus == s.cpus && |t.procs| == |s.procs| && t.procs == s.procs[p := t.procs[p]]
  {
    hide Holds, Owns, Shows, LockOk, LocksOk, Waiting, Waking, WakeOk;
    assert CpuOk(s, c);
  }

  lemma OwnStepPlaces(s: State, c: nat, t: State)
    requires Inv(s) && AtPoint(s, c) && ProcStep(s, c) == Some(t) && Shape(t) && s.cpus[c].run.Some?
    requires !Cur(s, c).l.Look?
    ensures forall d: nat | d < |t.cpus| :: CpuOk(t, d)
    ensures forall p: nat | p < |t.procs| :: ProcOk(t, p)
  {
    OwnStepPlace(s, c, t);
    OwnEntryPlaces(s, c, s.cpus[c].run.value, t.procs[s.cpus[c].run.value], t);
  }

  // A sleeper found by wakeup is parked.
  lemma FoundParked(s: State, c: nat, i: nat)
    requires Inv(s) && Ready(s, c) && Owns(|s.procs|, Cur(s, c), i) && i < |s.procs|
    requires s.cpus[c].run != Some(i) && !s.procs[i].state.Running?
    ensures !OnCpu(s, i) && ProcOk(s, i)
    ensures forall d: nat | d < |s.cpus| && d != c :: s.cpus[d].cur != Some(i)
  {
    forall d: nat | d < |s.cpus| && d != c
      ensures s.cpus[d].cur != Some(i)
    {
      assert Ready(s, d) && CpuOk(s, d) && LockOk(s, c, i) && LockOk(s, d, i);
    }
    forall d: nat | d < |s.cpus|
      ensures s.cpus[d].run != Some(i)
    {
      assert Ready(s, d) && CpuOk(s, d) && LockOk(s, c, i) && LockOk(s, d, i);
    }
    assert ProcOk(s, i);
  }

  lemma LookPlaces(s: State, c: nat, t: State)
    requires Inv(s) && AtPoint(s, c) && ProcStep(s, c) == Some(t) && Shape(t)
    requires Cur(s, c).l.Look?
    ensures forall d: nat | d < |t.cpus| :: CpuOk(t, d)
    ensures forall p: nat | p < |t.procs| :: ProcOk(t, p)
  {
    hide Holds, Owns, Shows, LockOk, LocksOk, Waiting, Waking, WakeOk;
    assert CpuOk(s, c);
    FoundParked(s, c, Cur(s, c).l.i);
    forall d: nat | d < |t.cpus|
      ensures CpuOk(t, d)
    {
      assert Ready(s, d) && CpuOk(s, d);
    }
    forall p: nat | p < |t.procs|
      ensures ProcOk(t, p)
    {
      assert ProcOk(s, p);
    }
  }

  lemma GoPlaces(s: State, c: nat, t: State)
    requires Inv(s) && AtPoint(s, c) && ProcStep(s, c) == Some(t) && Shape(t) && s.cpus[c].run == None
    ensures forall d: nat | d < |t.cpus| :: CpuOk(t, d)
    ensures forall p: nat | p < |t.procs| :: ProcOk(t, p)
  {
    hide Holds, Owns, Shows, LockOk, LocksOk, Waiting, Waking, WakeOk;
    assert CpuOk(s, c);
    forall d: nat | d < |t.cpus|
      ensures CpuOk(t, d)
    {
      assert Ready(s, d) && CpuOk(s, d);
    }
    forall p: nat | p < |t.procs|
      ensures ProcOk(t, p)
    {
      assert ProcOk(s, p);
    }
  }

  lemma ProcStepPlaces(s: State, c: nat, t: State)
    requires Inv(s) && AtPoint(s, c) && ProcStep(s, c) == Some(t) && Shape(t)
    ensures forall d: nat | d < |t.cpus| :: CpuOk(t, d)
    ensures forall p: nat | p < |t.procs| :: ProcOk(t, p)
  {
    if s.cpus[c].run == None {
      GoPlaces(s, c, t);
    } else if Cur(s, c).l.Look? {
      LookPlaces(s, c, t);
    } else {
      OwnStepPlaces(s, c, t);
    }
  }

  lemma LookWake(s: State, c: nat, t: State, m: nat, q: nat)
    requires Inv(s) && AtPoint(s, c) && ProcStep(s, c) == Some(t) && m < |s.mons| && q < |s.procs|
    requires Shape(t) && LocksOk(t) && Cur(s, c).l.Look?
    ensures WakeOk(t, m, q)
  {
    assert CpuOk(s, c) && WakeOk(s, m, q);
    FoundParked(s, c, Cur(s, c).l.i);
    ProcStepSame(s, c, t);
    assert LockOk(s, c, |s.procs| + m);
  }

  lemma ProcStepWake(s: State, c: nat, t: State, m: nat, q: nat)
    requires Inv(s) && AtPoint(s, c) && ProcStep(s, c) == Some(t) && m < |s.mons| && q < |s.procs|
    requires Shape(t) && LocksOk(t)
    ensures WakeOk(t, m, q)
  {
    if Cur(s, c).l.Look? {
      LookWake(s, c, t, m, q);
    } else {
      assert CpuOk(s, c) && WakeOk(s, m, q);
      ProcStepSame(s, c, t);
      assert Waiting(t.procs[q], m) == Waiting(s.procs[q], m);
    }
  }

  lemma ProcStepInv(s: State, c: nat, t: State)
    requires Inv(s) && AtPoint(s, c) && ProcStep(s, c) == Some(t)
    ensures Inv(t)
  {
    ProcStepSame(s, c, t);
    ProcStepPlaces(s, c, t);
    forall m: nat, q: nat | m < |s.mons| && q < |s.procs|
      ensures WakeOk(t, m, q)
    {
      ProcStepWake(s, c, t, m, q);
    }
  }

  // ---------- context switches ----------

  lemma CpuStepOthers(s: State, c: nat, t: State)
    requires Inv(s) && AtPoint(s, c) && CpuStep(s, c) == Some(t)
    ensures forall d: nat | d < |s.cpus| && d != c :: Ready(s, d) && Ready(t, d) && Cur(t, d) == Cur(s, d)
  {
    assert CpuOk(s, c);
    forall d: nat | d < |s.cpus| && d != c
      ensures Ready(s, d) && Ready(t, d) && Cur(t, d) == Cur(s, d)
    {
      assert Ready(s, d) && CpuOk(s, d);
    }
  }

  // It neither takes nor gives up a lock.
  lemma CpuStepOwns(s: State, c: nat, t: State)
    requires Inv(s) && AtPoint(s, c) && CpuStep(s, c) == Some(t)
    ensures Ready(t, c)
    ensures forall k: nat | k < |s.locks| ::
              && Owns(|s.procs|, Cur(t, c), k) == Owns(|s.procs|, Cur(s, c), k)
              && Shows(|s.procs|, Cur(t, c), k) == Shows(|s.procs|, Cur(s, c), k)
  {
    assert CpuOk(s, c);
  }

  lemma CpuStepSame(s: State, c: nat, t: State)
    requires Inv(s) && AtPoint(s, c) && CpuStep(s, c) == Some(t)
    ensures t.locks == s.locks && t.mons == s.mons
    ensures Shape(t) && LocksOk(t)
    ensures forall d: nat | d < |s.cpus| && d != c :: Cur(t, d) == Cur(s, d)
  {
    CpuStepOthers(s, c, t);
    CpuStepOwns(s, c, t);
    hide Inv, LocksOk, Owns, Shows, CpuOk, Shape;
    LocksKept(s, c, t);
  }

  // The process whose lock a scheduler holds, or that gives up this CPU, is the only one concerned.
  lemma SwitchedParked(s: State, c: nat, i: nat)
    requires Inv(s) && AtPoint(s, c) && CpuStep(s, c).Some? && i < |s.procs|
    requires s.cpus[c].run == None && (Cur(s, c).l == See(i) || Cur(s, c).l == Jump(i) || Cur(s, c).l == Home(i))
    ensures !OnCpu(s, i) && ProcOk(s, i)
    ensures forall d: nat | d < |s.cpus| && d != c :: s.cpus[d].cur != Some(i)
  {
    assert CpuOk(s, c);
    if Cur(s, c).l.See? {
      FoundParked(s, c, i);
    } else {
      assert ProcOk(s, i);
      forall d: nat | d < |s.cpus| && d != c
        ensures s.cpus[d].cur != Some(i)
      {
        if s.cpus[d].cur == Some(i) {
          OneCpu(s, c, d, i);
        }
      }
    }
  }

  lemma SchedulerPlaces(s: State, c: nat, t: State)
    requires Inv(s) && AtPoint(s, c) && CpuStep(s, c) == Some(t) && Shape(t) && s.cpus[c].run == None
    ensures forall d: nat | d < |t.cpus| :: CpuOk(t, d)
    ensures forall p: nat | p < |t.procs| :: ProcOk(t, p)
  {
    hide Holds, Owns, Shows, LockOk, LocksOk, Waiting, Waking, WakeOk;
    assert CpuOk(s, c);
    SwitchedParked(s, c, Cur(s, c).l.i);
    forall d: nat | d < |t.cpus|
      ensures CpuOk(t, d)
    {
      assert Ready(s, d) && CpuOk(s, d);
    }
    forall p: nat | p < |t.procs|
      ensures ProcOk(t, p)
    {
      assert ProcOk(s, p);
    }
  }

  lemma SwitchPlaces(s: State, c: nat, t: State)
    requires Inv(s) && AtPoint(s, c) && CpuStep(s, c) == Some(t) && Shape(t) && s.cpus[c].run.Some?
    ensures forall d: nat | d < |t.cpus| :: CpuOk(t, d)
    ensures forall p: nat | p < |t.procs| :: ProcOk(t, p)
  {
    hide Holds, Owns, Shows, LockOk, LocksOk, Waiting, Waking, WakeOk;
    assert CpuOk(s, c);
    forall d: nat | d < |t.cpus|
      ensures CpuOk(t, d)
    {
      assert Ready(s, d) && CpuOk(s, d);
    }
    forall p: nat | p < |t.procs|
      ensures ProcOk(t, p)
    {
      assert ProcOk(s, p);
    }
  }

  lemma CpuStepPlaces(s: State, c: nat, t: State)
    requires Inv(s) && AtPoint(s, c) && CpuStep(s, c) == Some(t) && Shape(t)
    ensures forall d: nat | d < |t.cpus| :: CpuOk(t, d)
    ensures forall p: nat | p < |t.procs| :: ProcOk(t, p)
  {
    if s.cpus[c].run == None {
      SchedulerPlaces(s, c, t);
    } else {
      SwitchPlaces(s, c, t);
    }
  }

  lemma CpuStepWake(s: State, c: nat, t: State, m: nat, q: nat)
    requires Inv(s) && AtPoint(s, c) && CpuStep(s, c) == Some(t) && m < |s.mons| && q < |s.procs|
    requires Shape(t) && LocksOk(t)
    ensures WakeOk(t, m, q)
  {
    assert CpuOk(s, c) && WakeOk(s, m, q) && ProcOk(s, q);
    CpuStepSame(s, c, t);
    assert LockOk(s, c, |s.procs| + m);
  }

  lemma CpuStepInv(s: State, c: nat, t: State)
    requires Inv(s) && AtPoint(s, c) && CpuStep(s, c) == Some(t)
    ensures Inv(t)
  {
    CpuStepSame(s, c, t);
    CpuStepPlaces(s, c, t);
    forall m: nat, q: nat | m < |s.mons| && q < |s.procs|
      ensures WakeOk(t, m, q)
    {
      CpuStepWake(s, c, t, m, q);
    }
  }

  /** Every step of every CPU keeps the invariant. */
  lemma NextInv(s: State, c: nat, ch: Choice, t: State)
    requires Inv(s) && Next(s, c, ch, t)
    ensures Inv(t)
  {
    if LockEnabled(s, c) {
      LockStepInv(s, c);
    } else if MonStep(s, c, ch) == Some(t) {
      MonStepInv(s, c, ch, t);
    } else if ProcStep(s, c) == Some(t) {
      ProcStepInv(s, c, t);
    } else if CpuStep(s, c) == Some(t) {
      CpuStepInv(s, c, t);
    } else {
      MovedInv(s, c, ch);
    }
  }
}
