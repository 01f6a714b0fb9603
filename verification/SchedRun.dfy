/** What holds in every state the multi-CPU machine can reach. */
module SchedRun {
  import opened Device
  import opened Sched
  import opened SchedInv

  ghost predicate Run(ss: seq<State>, cs: seq<nat>, chs: seq<Choice>) {
    && |ss| == |cs| + 1 && |chs| == |cs| && Init(ss[0])
    && forall i | 0 <= i < |cs| :: Next(ss[i], cs[i], chs[i], ss[i + 1])
  }

  lemma {:induction false} RunInv(ss: seq<State>, cs: seq<nat>, chs: seq<Choice>, k: nat)
    requires Run(ss, cs, chs) && k < |ss|
    ensures Inv(ss[k])
  {
    if k == 0 {
      InitInv(ss[0]);
    } else {
      RunInv(ss, cs, chs, k - 1);
      NextInv(ss[k - 1], cs[k - 1], chs[k - 1], ss[k]);
    }
  }

  // Some run ends in s.
  ghost predicate Reachable(s: State) {
    exists ss: seq<State>, cs, chs :: Run(ss, cs, chs) && ss[|cs|] == s
  }

  lemma ReachInv(s: State)
    requires Reachable(s)
    ensures Inv(s)
  {
    var ss: seq<State>, cs, chs :| Run(ss, cs, chs) && ss[|cs|] == s;
    RunInv(ss, cs, chs, |cs|);
  }

  /** Spinlocks exclude, and holding() is exact: no other CPU can change its answer between its
      two reads. */
  lemma Exclusion(s: State, c: nat, d: nat, k: nat, ch: Choice, t: State)
    requires Reachable(s) && c < |s.cpus| && d < |s.cpus| && c != d && k < |s.locks| && Ready(s, c) && Ready(s, d)
    ensures !(Owns(|s.procs|, Cur(s, c), k) && Owns(|s.procs|, Cur(s, d), k))
    ensures Holding(s, c, k) <==> Shows(|s.procs|, Cur(s, c), k)
    ensures Next(s, d, ch, t) ==> |t.locks| == |s.locks| && Holding(t, c, k) == Holding(s, c, k)
  {
    ReachInv(s);
    assert LockOk(s, c, k) && LockOk(s, d, k);
    if Next(s, d, ch, t) {
      OtherHolding(s, c, d, k, ch, t);
    }
  }

  lemma OtherHolding(s: State, c: nat, d: nat, k: nat, ch: Choice, t: State)
    requires Inv(s) && c < |s.cpus| && d < |s.cpus| && c != d && k < |s.locks| && Next(s, d, ch, t)
    ensures |t.locks| == |s.locks| && Holding(t, c, k) == Holding(s, c, k)
  {
    assert LockOk(s, c, k) && LockOk(s, d, k);
    if LockEnabled(s, d) {
      OtherLockStep(s, c, d, k);
    } else {
      assert t.locks == s.locks;
    }
  }

  lemma OtherLockStep(s: State, c: nat, d: nat, k: nat)
    requires Inv(s) && c < |s.cpus| && d < |s.cpus| && c != d && k < |s.locks| && LockEnabled(s, d)
    ensures Holding(LockStep(s, d), c, k) == Holding(s, c, k)
  {
    assert LockOk(s, c, k) && LockOk(s, d, k) && CpuOk(s, d);
    assert LockOk(s, d, Cur(s, d).k);
  }

  /** No panic: acquire never meets its own lock, release never someone else's, sched is entered
      with the process locked and not RUNNING, thisproc() is the process on the CPU, and a zombie
      never returns. */
  lemma NoPanic(s: State, c: nat)
    requires Reachable(s) && c < |s.cpus| && Ready(s, c)
    ensures s.cpus[c].run.Some? ==> s.cpus[c].cur == s.cpus[c].run
    ensures match Cur(s, c)
            case Spin(k, _) => k < |s.locks| ==> !(s.locks[k].locked && s.locks[k].cpu == Some(c))
            case Drop(k, _) => k < |s.locks| ==> s.locks[k].locked && s.locks[k].cpu == Some(c)
            case At(Switch(p, _)) =>
              p < |s.procs| && p < |s.locks| && s.locks[p].locked && s.locks[p].cpu == Some(c) && !s.procs[p].state.Running?
            case At(Back(_, why)) => !why.Exited?
            case _ => true
  {
    ReachInv(s);
    assert CpuOk(s, c);
    var pc := Cur(s, c);
    if !pc.At? && pc.k < |s.locks| {
      assert LockOk(s, c, pc.k);
    }
    if pc.At? && pc.l.Switch? {
      assert LockOk(s, c, pc.l.p);
    }
  }

  predicate LockFree(s: State, k: nat) {
    k < |s.locks| && !s.locks[k].locked
  }

  /** Exclusive running: while p's lock is free, p is RUNNING exactly if some CPU has it as
      c->proc; that CPU is the only one and is executing p. */
  lemma ExclusiveRunning(s: State, p: nat)
    requires Reachable(s) && p < |s.procs| && LockFree(s, p)
    ensures s.procs[p].state.Running? <==> exists c: nat :: c < |s.cpus| && s.cpus[c].cur == Some(p)
    ensures forall c: nat, d: nat | c < |s.cpus| && d < |s.cpus| ::
              s.cpus[c].cur == Some(p) && s.cpus[d].cur == Some(p) ==> c == d
    ensures forall c: nat | c < |s.cpus| :: s.cpus[c].cur == Some(p) <==> s.cpus[c].run == Some(p)
  {
    ReachInv(s);
    assert ProcOk(s, p);
    forall c: nat | c < |s.cpus|
      ensures s.cpus[c].cur == Some(p) ==> s.procs[p].state.Running?
      ensures s.cpus[c].cur == Some(p) <==> s.cpus[c].run == Some(p)
    {
      assert Ready(s, c) && CpuOk(s, c) && LockOk(s, c, p);
    }
    forall c: nat, d: nat | c < |s.cpus| && d < |s.cpus| && s.cpus[c].cur == Some(p) && s.cpus[d].cur == Some(p)
      ensures c == d
    {
      OneCpu(s, c, d, p);
    }
  }

  /** Never two CPUs on one process's stack, whatever locks are held. */
  lemma OneStack(s: State, c: nat, d: nat)
    requires Reachable(s) && c < |s.cpus| && d < |s.cpus| && s.cpus[c].run.Some? && s.cpus[c].run == s.cpus[d].run
    ensures c == d
  {
    ReachInv(s);
    assert Ready(s, c) && Ready(s, d) && CpuOk(s, c) && CpuOk(s, d);
    OneCpu(s, c, d, s.cpus[c].run.value);
  }

  /** No lost wakeup: while the lock of a monitor is free and what a process waits for is there (the
      sleeplock is free, the log has room and is not committing, a byte is unread), nobody is asleep on
      it or past the point of no return in sleep. */
  lemma NoLostWakeup(s: State, m: nat, q: nat)
    requires Reachable(s) && m < |s.mons| && q < |s.procs| && LockFree(s, |s.procs| + m)
    requires match s.mons[m]
             case SleepLock(locked, _) => !locked
             case LogSpace(n, outstanding, committing) => !committing && n + (outstanding + 1) * 10 <= 30
             case Input(r, w) => r != w
    ensures !Waiting(s.procs[q], m)
    ensures !(s.procs[q].state.Sleeping? && s.procs[q].chan == Some(m))
  {
    ReachInv(s);
    assert WakeOk(s, m, q) && ProcOk(s, q);
    if s.procs[q].state.Sleeping? && OnCpu(s, q) {
      assert Ready(s, s.procs[q].home) && CpuOk(s, s.procs[q].home);
    }
  }

  // ---------- lock order ----------

  predicate Stuck(s: State, c: nat)
    requires Ready(s, c)
  {
    Cur(s, c).Spin? && Cur(s, c).k < |s.locks| && s.locks[Cur(s, c).k].locked
  }

  // A CPU that owns a process lock is not spinning.
  lemma ProcLockMovesOn(s: State, c: nat, p: nat)
    requires Inv(s) && c < |s.cpus| && Ready(s, c) && p < |s.procs| && Owns(|s.procs|, Cur(s, c), p)
    ensures !Cur(s, c).Spin?
  {
    assert CpuOk(s, c);
  }

  /** Monitor locks are taken before process locks: some CPU is never waiting for another's lock. */
  lemma NoDeadlock(s: State) returns (c: nat)
    requires Reachable(s) && |s.cpus| > 0
    ensures c < |s.cpus| && Ready(s, c) && !Stuck(s, c)
  {
    ReachInv(s);
    c := 0;
    assert Ready(s, c);
    if Stuck(s, c) {
      assert CpuOk(s, c);
      var k := Cur(s, c).k;
      c := s.locks[k].owner.value;
      assert Ready(s, c) && LockOk(s, c, k);
      if Stuck(s, c) {
        assert CpuOk(s, c);
        if k < |s.procs| {
          ProcLockMovesOn(s, c, k);
        }
        k := Cur(s, c).k;
        c := s.locks[k].owner.value;
        assert Ready(s, c) && LockOk(s, c, k);
        ProcLockMovesOn(s, c, k);
      }
    }
  }

  lemma LockCanStep(s: State, c: nat)
    requires Inv(s) && c < |s.cpus| && Ready(s, c) && !Stuck(s, c) && !Cur(s, c).At?
    ensures LockEnabled(s, c)
  {
    assert CpuOk(s, c) && LockOk(s, c, Cur(s, c).k);
  }

  // A choice that suits the point.
  function ChoiceAt(s: State, l: Point): Choice {
    match l
    case Idle(_) => Yield
    case Alter(_, m) =>
      if m >= |s.mons| then Nothing
      else if s.mons[m].SleepLock? then Unlock
      else if s.mons[m].LogSpace? then Append(false)
      else Commit(0)
    case _ => Nothing
  }

  lemma PointCanStep(s: State, c: nat, ch: Choice)
    requires Reachable(s) && AtPoint(s, c) && c < |s.cpus| && ch == ChoiceAt(s, Cur(s, c).l)
    ensures Moved(s, c, ch).Some? || MonStep(s, c, ch).Some? || ProcStep(s, c).Some? || CpuStep(s, c).Some?
  {
    ReachInv(s);
    assert CpuOk(s, c);
    NoPanic(s, c);
  }

  /** A CPU that is not waiting for a lock has a next step. */
  lemma CanStep(s: State, c: nat) returns (ch: Choice, t: State)
    requires Reachable(s) && c < |s.cpus| && Ready(s, c) && !Stuck(s, c)
    ensures Next(s, c, ch, t)
  {
    ReachInv(s);
    var pc := Cur(s, c);
    ch := ChoiceAt(s, pc.l);
    if !pc.At? {
      LockCanStep(s, c);
      t := LockStep(s, c);
    } else {
      PointCanStep(s, c, ch);
      t := if Moved(s, c, ch).Some? then SetCur(s, c, Moved(s, c, ch).value)
      else if MonStep(s, c, ch).Some? then MonStep(s, c, ch).value
      else if ProcStep(s, c).Some? then ProcStep(s, c).value
      else CpuStep(s, c).value;
    }
  }
}
