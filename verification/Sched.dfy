/** Spinlocks, sleep and wakeup, and the per-CPU scheduler (kern/spinlock.c, kern/sleeplock.c,
    kern/proc.c) as one machine: every CPU advances by one memory access at a time. */
module Sched {
  import opened Device
  import opened Limits

  // owner is history: which CPU won the test-and-set.
  datatype Lock = Lock(locked: bool, cpu: Option<nat>, owner: Option<nat>)

  datatype ProcState = Unused | Sleeping | Runnable | Running | Zombie

  // Why a process called sched.
  datatype Why = Slept(m: nat) | Yielded | Exited

  // Between two lock operations, a process p or the scheduler of a CPU is at one of these points.
  datatype Point =
    | Idle(p: nat)                    // outside all of this
    | Test(p: nat, m: nat)            // the while test under monitor m's lock
    | Alter(p: nat, m: nat)           // releasesleep, end_op, log_write, console_intr under that lock
    | Bed(p: nat, m: nat)             // sleep: p->lock acquired, about to release the monitor's
    | Lie(p: nat, m: nat)             // sleep: about to set chan
    | Down(p: nat, m: nat)            // sleep: about to set SLEEPING
    | Nap(p: nat)                     // yield: about to set RUNNABLE
    | Quit(p: nat)                    // exit: about to set ZOMBIE
    | Switch(p: nat, why: Why)        // sched
    | Back(p: nat, why: Why)          // swtch has returned
    | Again(p: nat, m: nat)           // sleep: about to reacquire the monitor's lock
    | Wake(p: nat, m: nat, i: nat)    // wakeup: loop test
    | Look(p: nat, m: nat, i: nat)    // wakeup: process i under its lock
    | Loop(i: nat)                    // scheduler: loop test
    | See(i: nat)                     // scheduler: process i under its lock
    | Go(i: nat)                      // scheduler: c->proc is set
    | Jump(i: nat)                    // scheduler: i is RUNNING, about to swtch
    | Home(i: nat)                    // scheduler: swtch has returned

  // acquire(k) spins on test-and-set and then sets lk->cpu; release(k) clears lk->cpu and then locked.
  datatype PC =
    | At(l: Point)
    | Spin(k: nat, l: Point)
    | Mark(k: nat, l: Point)
    | Drop(k: nat, l: Point)
    | Free(k: nat, l: Point)

  // home is history: the CPU that last scheduled the process.
  datatype Proc = Proc(state: ProcState, chan: Option<nat>, pc: PC, home: nat)

  // c->proc; which process's stack the CPU is really on (None: the scheduler's); the scheduler's pc.
  datatype Cpu = Cpu(cur: Option<nat>, run: Option<nat>, sched: PC)

  // What a sleeping process waits for: a sleeplock, room in the log, a line of input.
  datatype Mon =
    | SleepLock(locked: bool, pid: Option<nat>)
    | LogSpace(n: nat, outstanding: int, committing: bool)
    | Input(r: nat, w: nat)

  datatype State = State(locks: seq<Lock>, procs: seq<Proc>, cpus: seq<Cpu>, mons: seq<Mon>)

  // The nondeterminism of processes.
  datatype Choice =
    | Nothing
    | Enter(m: nat) | Change(m: nat) | Yield | Exit | ClearLog(m: nat)
    | More | Stop
    | Unlock | EndOp | EndCommit | Append(grow: bool) | Commit(lines: nat)

  // ---------- monitors ----------

  // The while condition around sleep.
  predicate Blocked(mon: Mon) {
    match mon
    case SleepLock(locked, _) => locked
    case LogSpace(n, outstanding, committing) => committing || n + (outstanding + 1) * MAXOPBLOCKS > LOGSIZE
    case Input(r, w) => r == w
  }

  // What process p does once past the test.
  function Pass(mon: Mon, p: nat): Mon {
    match mon
    case SleepLock(_, _) => SleepLock(true, Some(p))
    case LogSpace(n, outstanding, committing) => LogSpace(n, outstanding + 1, committing)
    case Input(r, w) => Input(r + 1, w)
  }

  predicate CanAlter(mon: Mon, ch: Choice) {
    match ch
    case Unlock => mon.SleepLock?
    case EndOp => mon.LogSpace? && !mon.committing
    case EndCommit => mon.LogSpace?
    case Append(_) => mon.LogSpace?
    case Commit(_) => mon.Input?
    case _ => false
  }

  // The change under the lock, and whether wakeup follows.
  function Altered(mon: Mon, ch: Choice): (Mon, bool)
    requires CanAlter(mon, ch)
  {
    match ch
    case Unlock => (SleepLock(false, None), true)
    case EndOp =>
      var o := mon.outstanding - 1;
      if o == 0 then (LogSpace(mon.n, o, true), false) else (LogSpace(mon.n, o, false), true)
    case EndCommit => (mon.(committing := false), true)
    case Append(grow) => (mon.(n := if grow then mon.n + 1 else mon.n), false)
    case Commit(lines) => (Input(mon.r, mon.w + lines), true)
  }

  // ---------- which locks a point holds ----------

  // Process p's lock is number p; monitor m's lock is number |procs| + m.
  function MonLock(s: State, m: nat): nat { |s.procs| + m }

  predicate Holds(n: nat, l: Point, k: nat) {
    match l
    case Idle(_) => false
    case Test(p, m) => k == n + m
    case Alter(p, m) => k == n + m
    case Bed(p, m) => k == p || k == n + m
    case Lie(p, _) => k == p
    case Down(p, _) => k == p
    case Nap(p) => k == p
    case Quit(p) => k == p
    case Switch(p, _) => k == p
    case Back(p, _) => k == p
    case Again(_, _) => false
    case Wake(_, m, _) => k == n + m
    case Look(_, m, i) => k == i || k == n + m
    case Loop(_) => false
    case See(i) => k == i
    case Go(i) => k == i
    case Jump(i) => k == i
    case Home(i) => k == i
  }

  // Locks won and not yet given back, at this point in this lock operation.
  predicate Owns(n: nat, pc: PC, k: nat) {
    match pc
    case At(l) => Holds(n, l, k)
    case Spin(j, l) => Holds(n, l, k) && k != j
    case Mark(_, l) => Holds(n, l, k)
    case Drop(j, l) => Holds(n, l, k) || k == j
    case Free(j, l) => Holds(n, l, k) || k == j
  }

  // Locks whose cpu field names this CPU.
  predicate Shows(n: nat, pc: PC, k: nat) {
    Owns(n, pc, k) && !((pc.Mark? || pc.Free?) && k == pc.k)
  }

  // ---------- steps ----------

  predicate Ready(s: State, c: nat) {
    c < |s.cpus| && (s.cpus[c].run.Some? ==> s.cpus[c].run.value < |s.procs|)
  }

  function Cur(s: State, c: nat): PC
    requires Ready(s, c)
  {
    match s.cpus[c].run
    case None => s.cpus[c].sched
    case Some(p) => s.procs[p].pc
  }

  function SetCur(s: State, c: nat, pc: PC): State
    requires Ready(s, c)
  {
    match s.cpus[c].run
    case None => s.(cpus := s.cpus[c := s.cpus[c].(sched := pc)])
    case Some(p) => s.(procs := s.procs[p := s.procs[p].(pc := pc)])
  }

  // holding(lk) as CPU c evaluates it.
  predicate Holding(s: State, c: nat, k: nat)
    requires k < |s.locks|
  {
    s.locks[k].locked && s.locks[k].cpu == Some(c)
  }

  predicate LockEnabled(s: State, c: nat) {
    && Ready(s, c)
    && match Cur(s, c)
       case At(_) => false
       case Spin(k, _) => k < |s.locks| && !s.locks[k].locked
       case Mark(k, _) => k < |s.locks|
       case Drop(k, _) => k < |s.locks| && Holding(s, c, k)
       case Free(k, _) => k < |s.locks|
  }

  function LockStep(s: State, c: nat): State
    requires LockEnabled(s, c)
  {
    match Cur(s, c)
    case Spin(k, l) => SetCur(s.(locks := s.locks[k := s.locks[k].(locked := true, owner := Some(c))]), c, Mark(k, l))
    case Mark(k, l) => SetCur(s.(locks := s.locks[k := s.locks[k].(cpu := Some(c))]), c, At(l))
    case Drop(k, l) => SetCur(s.(locks := s.locks[k := s.locks[k].(cpu := None)]), c, Free(k, l))
    case Free(k, l) => SetCur(s.(locks := s.locks[k := s.locks[k].(locked := false, owner := None)]), c, At(l))
  }

  predicate AtPoint(s: State, c: nat) {
    Ready(s, c) && Cur(s, c).At?
  }

  // Steps that only move the pc.
  function Moved(s: State, c: nat, ch: Choice): Option<PC>
    requires AtPoint(s, c)
  {
    match Cur(s, c).l
    case Idle(p) =>
      (match ch
       case Enter(m) => if m < |s.mons| then Some(Spin(MonLock(s, m), Test(p, m))) else None
       case Change(m) => if m < |s.mons| then Some(Spin(MonLock(s, m), Alter(p, m))) else None
       case Yield => Some(Spin(p, Nap(p)))
       case Exit => Some(Spin(p, Quit(p)))
       case _ => None)
    case Test(p, m) =>
      if m >= |s.mons| then None
      else if Blocked(s.mons[m]) then
        if ch.Stop? && s.mons[m].Input? then Some(Drop(MonLock(s, m), Idle(p))) else Some(Spin(p, Bed(p, m)))
      else if ch.Stop? && s.mons[m].Input? then Some(Drop(MonLock(s, m), Idle(p)))
      else None
    case Bed(p, m) => Some(Drop(MonLock(s, m), Lie(p, m)))
    case Again(p, m) => Some(Spin(MonLock(s, m), Test(p, m)))
    case Wake(p, m, i) =>
      if i >= |s.procs| then Some(Drop(MonLock(s, m), Idle(p)))
      else if i == p then Some(At(Wake(p, m, i + 1)))
      else Some(Spin(i, Look(p, m, i)))
    case Look(p, m, i) =>
      if i < |s.procs| && s.procs[i].state.Sleeping? && s.procs[i].chan == Some(m) then None
      else Some(Drop(i, Wake(p, m, i + 1)))
    case Back(p, why) =>
      if why.Yielded? then Some(Drop(p, Idle(p))) else None
    case Loop(i) => if i < |s.procs| then Some(Spin(i, See(i))) else Some(At(Loop(0)))
    case See(i) => if i < |s.procs| && s.procs[i].state.Runnable? then None else Some(Drop(i, Loop(i + 1)))
    case _ => None
  }

  // Steps that change a monitor under its lock.
  function MonStep(s: State, c: nat, ch: Choice): Option<State>
    requires AtPoint(s, c)
  {
    match Cur(s, c).l
    case Test(p, m) =>
      if m < |s.mons| && !Blocked(s.mons[m]) && !(ch.Stop? && s.mons[m].Input?) then
        Some(SetCur(s.(mons := s.mons[m := Pass(s.mons[m], p)]), c,
                    if ch.More? && s.mons[m].Input? then At(Test(p, m)) else Drop(MonLock(s, m), Idle(p))))
      else None
    case Alter(p, m) =>
      if m < |s.mons| && CanAlter(s.mons[m], ch) then
        var a := Altered(s.mons[m], ch);
        Some(SetCur(s.(mons := s.mons[m := a.0]), c, if a.1 then At(Wake(p, m, 0)) else Drop(MonLock(s, m), Idle(p))))
      else None
    case Idle(p) =>
      // commit() empties the header without the lock, while committing is set
      if ch.ClearLog? && ch.m < |s.mons| && s.mons[ch.m].LogSpace? && s.mons[ch.m].committing then
        Some(s.(mons := s.mons[ch.m := s.mons[ch.m].(n := 0)]))
      else None
    case _ => None
  }

  // Steps that change a process's state or chan under its lock.
  function ProcStep(s: State, c: nat): Option<State>
    requires AtPoint(s, c)
  {
    match Cur(s, c).l
    case Lie(p, m) =>
      if p < |s.procs| then
        Some(SetCur(s.(procs := s.procs[p := s.procs[p].(chan := Some(m))]), c, At(Down(p, m))))
      else None
    case Down(p, m) =>
      if p < |s.procs| then
        Some(SetCur(s.(procs := s.procs[p := s.procs[p].(state := Sleeping)]), c, At(Switch(p, Slept(m)))))
      else None
    case Nap(p) =>
      if p < |s.procs| then
        Some(SetCur(s.(procs := s.procs[p := s.procs[p].(state := Runnable)]), c, At(Switch(p, Yielded))))
      else None
    case Quit(p) =>
      if p < |s.procs| then
        Some(SetCur(s.(procs := s.procs[p := s.procs[p].(state := Zombie)]), c, At(Switch(p, Exited))))
      else None
    case Back(p, why) =>
      if p < |s.procs| && why.Slept? then
        Some(SetCur(s.(procs := s.procs[p := s.procs[p].(chan := None)]), c, Drop(p, Again(p, why.m))))
      else None
    case Look(p, m, i) =>
      if i < |s.procs| && s.procs[i].state.Sleeping? && s.procs[i].chan == Some(m) then
        Some(SetCur(s.(procs := s.procs[i := s.procs[i].(state := Runnable)]), c, Drop(i, Wake(p, m, i + 1))))
      else None
    case Go(i) =>
      if i < |s.procs| then
        Some(SetCur(s.(procs := s.procs[i := s.procs[i].(state := Running)]), c, At(Jump(i))))
      else None
    case _ => None
  }

  // Steps that change who is on the CPU.
  function CpuStep(s: State, c: nat): Option<State>
    requires AtPoint(s, c)
  {
    match Cur(s, c).l
    case See(i) =>
      if i < |s.procs| && s.procs[i].state.Runnable? then
        Some(s.(cpus := s.cpus[c := s.cpus[c].(cur := Some(i), sched := At(Go(i)))],
                procs := s.procs[i := s.procs[i].(home := c)]))
      else None
    case Jump(i) =>
      if i < |s.procs| then Some(s.(cpus := s.cpus[c := s.cpus[c].(run := Some(i), sched := At(Home(i)))])) else None
    case Switch(p, why) =>
      if p < |s.procs| && p < |s.locks| && Holding(s, c, p) && !s.procs[p].state.Running? then
        Some(s.(procs := s.procs[p := s.procs[p].(pc := At(Back(p, why)))], cpus := s.cpus[c := s.cpus[c].(run := None)]))
      else None
    case Home(i) =>
      Some(s.(cpus := s.cpus[c := s.cpus[c].(cur := None, sched := Drop(i, Loop(i + 1)))]))
    case _ => None
  }

  // One step of CPU c.
  predicate Next(s: State, c: nat, ch: Choice, t: State) {
    || (LockEnabled(s, c) && t == LockStep(s, c))
    || (AtPoint(s, c) &&
        (|| (Moved(s, c, ch).Some? && t == SetCur(s, c, Moved(s, c, ch).value))
         || MonStep(s, c, ch) == Some(t)
         || ProcStep(s, c) == Some(t)
         || CpuStep(s, c) == Some(t)))
  }

  // As initsleeplock, recovery and booting leave them.
  predicate Fresh(mon: Mon) {
    match mon
    case SleepLock(locked, pid) => !locked && pid == None
    case LogSpace(n, outstanding, committing) => n == 0 && outstanding == 0 && !committing
    case Input(r, w) => r == 0 && w == 0
  }

  // Every process starts out runnable, at forkret, or unused; every CPU at scheduler().
  ghost predicate Init(s: State) {
    && |s.locks| == |s.procs| + |s.mons| && (forall m | 0 <= m < |s.mons| :: Fresh(s.mons[m]))
    && (forall k | 0 <= k < |s.locks| :: s.locks[k] == Lock(false, None, None))
    && (forall p | 0 <= p < |s.procs| ::
          s.procs[p].pc == At(Back(p, Yielded)) && (s.procs[p].state.Runnable? || s.procs[p].state.Unused?))
    && (forall c | 0 <= c < |s.cpus| :: s.cpus[c] == Cpu(None, None, At(Loop(0))))
  }
}
