/** What the scheduler's loop comes to, and who changes a process's state (kern/proc.c). */
module SchedTurn {
  import opened Device
  import opened Sched
  import opened SchedInv
  import opened SchedRun

  /** A process's state changes in four ways only: a scheduler that has chosen it makes it RUNNING; on
      its own CPU it gives way, falls asleep on a monitor, or ends; and a wakeup on the monitor it
      sleeps on makes it RUNNABLE. Its lock is held by the CPU that does it, and so is the monitor's in
      a wakeup. */
  lemma StateChanges(s: State, c: nat, ch: Choice, t: State, p: nat)
    requires Reachable(s) && c < |s.cpus| && Ready(s, c) && Next(s, c, ch, t) && p < |s.procs|
    ensures |t.procs| == |s.procs| <= |s.locks|
    ensures var a, b := s.procs[p].state, t.procs[p].state;
            a != b ==>
              && Holding(s, c, p)
              && (|| (a == Runnable && b == Running && s.cpus[c].run == None && s.cpus[c].cur == Some(p))
                  || (a == Running && s.cpus[c].run == Some(p) &&
                      (b == Runnable || b == Zombie || (b == Sleeping && s.procs[p].chan.Some?)))
                  || (a == Sleeping && b == Runnable && match Cur(s, c)
                                                        case At(Look(_, m, i)) =>
                                                          && i == p && s.procs[p].chan == Some(m)
                                                          && |s.procs| + m < |s.locks| && Holding(s, c, |s.procs| + m)
                                                        case _ => false))
  {
    ReachInv(s);
    assert CpuOk(s, c) && LockOk(s, c, p);
    if AtPoint(s, c) && ProcStep(s, c) == Some(t) {
      var l := Cur(s, c).l;
      if l.Look? {
        assert LockOk(s, c, |s.procs| + l.m);
      }
    } else {
      OtherStep(s, c, ch, t, p);
    }
  }

  lemma OtherStep(s: State, c: nat, ch: Choice, t: State, p: nat)
    requires Ready(s, c) && Next(s, c, ch, t) && !(AtPoint(s, c) && ProcStep(s, c) == Some(t)) && p < |s.procs|
    ensures |t.procs| == |s.procs| && t.procs[p].state == s.procs[p].state
  {
  }

  // ---------- one CPU alone ----------

  ghost predicate Steps(ss: seq<State>, c: nat, s: State, t: State) {
    && ss != [] && ss[0] == s && ss[|ss| - 1] == t
    && forall j | 0 <= j < |ss| - 1 :: Next(ss[j], c, Nothing, ss[j + 1])
  }

  lemma Join(a: seq<State>, b: seq<State>, c: nat, s: State, t: State, u: State) returns (ss: seq<State>)
    requires Steps(a, c, s, t) && Steps(b, c, t, u)
    ensures Steps(ss, c, s, u)
  {
    hide Next;
    ss := a + b[1..];
    forall j | 0 <= j < |ss| - 1
      ensures Next(ss[j], c, Nothing, ss[j + 1])
    {
      if j >= |a| - 1 {
        assert ss[j + 1] == b[j + 1 - (|a| - 1)];
        assert ss[j] == b[j - (|a| - 1)];
      }
    }
  }

  predicate LocksFree(s: State) {
    |s.procs| <= |s.locks| && forall k | 0 <= k < |s.procs| :: s.locks[k] == Lock(false, None, None)
  }

  // CPU c is in the scheduler's loop, at process i.
  predicate Looping(s: State, c: nat, i: nat) {
    c < |s.cpus| && s.cpus[c].run == None && s.cpus[c].sched == At(Loop(i))
  }

  function AtLoop(s: State, c: nat, i: nat): State
    requires c < |s.cpus|
  {
    s.(cpus := s.cpus[c := s.cpus[c].(sched := At(Loop(i)))])
  }

  // acquire of a free lock
  lemma Acquires(s: State, c: nat, k: nat, l: Point) returns (ss: seq<State>, t: State)
    requires c < |s.cpus| && s.cpus[c].run == None && s.cpus[c].sched == Spin(k, l)
    requires k < |s.locks| && s.locks[k] == Lock(false, None, None)
    ensures Steps(ss, c, s, t)
    ensures t == s.(locks := s.locks[k := Lock(true, Some(c), Some(c))], cpus := s.cpus[c := s.cpus[c].(sched := At(l))])
  {
    var a := LockStep(s, c);
    t := LockStep(a, c);
    ss := [s, a, t];
  }

  // release of one's own lock
  lemma Releases(s: State, c: nat, k: nat, l: Point) returns (ss: seq<State>, t: State)
    requires c < |s.cpus| && s.cpus[c].run == None && s.cpus[c].sched == Drop(k, l)
    requires k < |s.locks| && s.locks[k] == Lock(true, Some(c), Some(c))
    ensures Steps(ss, c, s, t)
    ensures t == s.(locks := s.locks[k := Lock(false, None, None)], cpus := s.cpus[c := s.cpus[c].(sched := At(l))])
  {
    var a := LockStep(s, c);
    t := LockStep(a, c);
    ss := [s, a, t];
  }

  // From the loop's head to where process i's state is looked at.
  lemma LooksAt(s: State, c: nat, i: nat) returns (ss: seq<State>, t: State)
    requires Looping(s, c, i) && LocksFree(s) && i < |s.procs|
    ensures Steps(ss, c, s, t)
    ensures t == s.(locks := s.locks[i := Lock(true, Some(c), Some(c))], cpus := s.cpus[c := s.cpus[c].(sched := At(See(i)))])
  {
    var a := SetCur(s, c, Spin(i, See(i)));
    var more;
    more, t := Acquires(a, c, i, See(i));
    assert Steps([s, a], c, s, a);
    ss := Join([s, a], more, c, s, a, t);
  }

  lemma PassesOver(s: State, c: nat, i: nat) returns (ss: seq<State>)
    requires Looping(s, c, i) && LocksFree(s) && i < |s.procs| && !s.procs[i].state.Runnable?
    ensures Steps(ss, c, s, AtLoop(s, c, i + 1))
  {
    hide Steps;
    var a, t;
    ss, a := LooksAt(s, c, i);
    var b := SetCur(a, c, Drop(i, Loop(i + 1)));
    assert Steps([a, b], c, a, b) by { OneStep(a, b, c); }
    ss := Join(ss, [a, b], c, s, a, b);
    var more;
    more, t := Releases(b, c, i, Loop(i + 1));
    ss := Join(ss, more, c, s, b, t);
    assert t.locks == s.locks;
    assert t == AtLoop(s, c, i + 1);
  }

  lemma OneStep(a: State, b: State, c: nat)
    requires Next(a, c, Nothing, b)
    ensures Steps([a, b], c, a, b)
  {
  }

  // The process that the scheduler has seen to be runnable.
  function Chosen(s: State, c: nat, q: nat): State
    requires c < |s.cpus| && q < |s.procs| <= |s.locks|
  {
    State(s.locks[q := Lock(true, Some(c), Some(c))], s.procs[q := s.procs[q].(state := Running, home := c)],
          s.cpus[c := Cpu(Some(q), Some(q), At(Home(q)))], s.mons)
  }

  lemma TakesUp(s: State, c: nat, q: nat) returns (ss: seq<State>)
    requires Looping(s, c, q) && LocksFree(s) && q < |s.procs| && s.procs[q].state.Runnable?
    ensures Steps(ss, c, s, Chosen(s, c, q))
  {
    var a;
    ss, a := LooksAt(s, c, q);
    var b := CpuStep(a, c).value;
    var d := ProcStep(b, c).value;
    var e := CpuStep(d, c).value;
    assert e == Chosen(s, c, q);
    assert Steps([a, b, d, e], c, a, e);
    ss := Join(ss, [a, b, d, e], c, s, a, e);
  }

  lemma {:induction false} PassesTo(s: State, c: nat, i: nat, j: nat) returns (ss: seq<State>)
    requires Looping(s, c, i) && LocksFree(s) && i <= j <= |s.procs|
    requires forall k | i <= k < j :: !s.procs[k].state.Runnable?
    ensures Steps(ss, c, s, AtLoop(s, c, j))
    decreases j - i
  {
    if i == j {
      ss := [s];
      assert AtLoop(s, c, j) == s;
    } else {
      hide Steps;
      var t := AtLoop(s, c, i + 1);
      ss := PassesOver(s, c, i);
      var more := PassesTo(t, c, i + 1, j);
      assert AtLoop(t, c, j) == AtLoop(s, c, j);
      ss := Join(ss, more, c, s, t, AtLoop(s, c, j));
    }
  }

  lemma WrapsAround(s: State, c: nat, i: nat)
    requires Looping(s, c, i) && i >= |s.procs|
    ensures Steps([s, AtLoop(s, c, 0)], c, s, AtLoop(s, c, 0))
  {
    assert Next(s, c, Nothing, AtLoop(s, c, 0));
  }

  // The place of process k in the order i, i + 1, .., 0, 1, ..
  function Place(n: nat, i: nat, k: nat): nat { if i <= k then k - i else n + k }

  // To the first runnable process from i on, around the table.
  lemma Reaches(s: State, c: nat, i: nat, q: nat) returns (ss: seq<State>)
    requires Looping(s, c, i) && LocksFree(s) && q < |s.procs| && s.procs[q].state.Runnable?
    requires forall k: nat | k < |s.procs| && s.procs[k].state.Runnable? :: Place(|s.procs|, i, q) <= Place(|s.procs|, i, k)
    ensures Steps(ss, c, s, AtLoop(s, c, q))
  {
    hide Steps;
    var n := |s.procs|;
    if i <= q {
      ss := PassesTo(s, c, i, q);
    } else {
      var end := if i < n then n else i;
      var t, u := AtLoop(s, c, end), AtLoop(s, c, 0);
      if i < n {
        ss := PassesTo(s, c, i, n);
      } else {
        assert t == s;
        ss := [s];
        assert Steps([s], c, s, t) by { NoStep(s, c); }
      }
      WrapsAround(t, c, end);
      assert AtLoop(t, c, 0) == u;
      ss := Join(ss, [t, u], c, s, t, u);
      var more := PassesTo(u, c, 0, q);
      assert AtLoop(u, c, q) == AtLoop(s, c, q);
      ss := Join(ss, more, c, s, u, AtLoop(s, c, q));
    }
  }

  lemma NoStep(s: State, c: nat)
    ensures Steps([s], c, s, s)
  {
  }

  lemma FreeLocks(s: State)
    requires Reachable(s) && forall k: nat | k < |s.procs| :: LockFree(s, k)
    ensures LocksFree(s)
  {
    ReachInv(s);
    forall k: nat | k < |s.procs|
      ensures s.locks[k] == Lock(false, None, None)
    {
      assert LockFree(s, k);
      forall d: nat | d < |s.cpus|
        ensures s.locks[k].cpu != Some(d)
      {
        assert LockOk(s, d, k);
      }
    }
  }

  /** No CPU is idle while a process is runnable, and they take turns: with the locks of the processes
      free, a CPU in the scheduler's loop at i comes by its own steps to run the first runnable process
      in the order i, i + 1, .., 0, 1, .., and everything else is then as before. */
  lemma RunsNext(s: State, c: nat, i: nat, q: nat) returns (ss: seq<State>, t: State)
    requires Reachable(s) && Looping(s, c, i) && forall k: nat | k < |s.procs| :: LockFree(s, k)
    requires q < |s.procs| && s.procs[q].state == Runnable
    requires forall k: nat | k < |s.procs| && s.procs[k].state == Runnable :: Place(|s.procs|, i, q) <= Place(|s.procs|, i, k)
    ensures Steps(ss, c, s, t)
    ensures t.procs == s.procs[q := s.procs[q].(state := Running, home := c)] && t.mons == s.mons
    ensures t.cpus == s.cpus[c := Cpu(Some(q), Some(q), At(Home(q)))]
    ensures q < |s.locks| && t.locks == s.locks[q := Lock(true, Some(c), Some(c))]
  {
    hide Steps;
    FreeLocks(s);
    ss := Reaches(s, c, i, q);
    var more := TakesUp(AtLoop(s, c, q), c, q);
    t := Chosen(AtLoop(s, c, q), c, q);
    ss := Join(ss, more, c, s, AtLoop(s, c, q), t);
  }

  /** When process q has switched back, the search goes on behind it. */
  lemma GoesOn(s: State, c: nat, q: nat) returns (ss: seq<State>, t: State)
    requires Reachable(s) && c < |s.cpus| && s.cpus[c].run == None && s.cpus[c].sched == At(Home(q))
    ensures Steps(ss, c, s, t) && Looping(t, c, q + 1) && t.procs == s.procs && t.mons == s.mons
    ensures q < |s.locks| && t.locks == s.locks[q := Lock(false, None, None)]
  {
    ReachInv(s);
    assert CpuOk(s, c) && LockOk(s, c, q);
    var a := CpuStep(s, c).value;
    assert Steps([s, a], c, s, a);
    var more;
    more, t := Releases(a, c, q, Loop(q + 1));
    ss := Join([s, a], more, c, s, a, t);
  }
}
