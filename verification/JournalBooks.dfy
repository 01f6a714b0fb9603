/** The journal's bookkeeping: every step, on any device and with any log size, keeps the count of
    open operations and the reservation of begin_op. */
module JournalBooks {
  import opened Device
  import opened Limits
  import opened Sets
  import opened Redo
  import opened Journal

  lemma OpenIsNormal(c: Config, s: State, p: nat)
    requires BooksOk(c, s) && p < |s.ops| && s.ops[p].Open?
    ensures s.phase.Normal? && s.outstanding >= 1
  {
    BudgetBound(s.ops, c.share);
  }

  // begin_op admits one more: what it could still log fits under the peak.
  lemma BeginPeak(c: Config, s: State, p: nat)
    requires Sane(c) && BooksOk(c, s) && Enabled(c, s, Begin(p))
    ensures |s.lh| + Budget(s.ops) + c.share <= Peak(c) && s.phase.Normal?
  {
    hide Room;
    BudgetBound(s.ops, c.share);
    if OpenCount(s.ops) == 0 {
      assert Budget(s.ops) <= c.share * 0;
    } else if OpenCount(s.ops) == 1 {
      assert Budget(s.ops) <= c.share * 1;
    } else {
      assert Budget(s.ops) <= c.share * 2;
    }
  }

  lemma BeginBooks(c: Config, s: State, p: nat)
    requires Sane(c) && BooksOk(c, s) && Enabled(c, s, Begin(p))
    ensures BooksOk(c, Do(c, s, Begin(p)))
  {
    BeginPeak(c, s, p);
    CountUpdate(s.ops, p, Open(c.share, {}, None));
  }

  lemma CheckBooks(c: Config, s: State, p: nat, x: nat)
    requires Sane(c) && BooksOk(c, s) && Enabled(c, s, Check(p, x))
    ensures BooksOk(c, Do(c, s, Check(p, x)))
  {
    CountUpdate(s.ops, p, s.ops[p].(call := Some(x)));
  }

  lemma RecordBooks(c: Config, s: State, p: nat, x: nat)
    requires Sane(c) && BooksOk(c, s) && Enabled(c, s, Record(p, x))
    ensures BooksOk(c, Do(c, s, Record(p, x)))
    ensures s.phase.Normal? && (x !in s.lh ==> |s.lh| < Peak(c))
  {
    BudgetBound(s.ops, c.share);
    var t, o := Do(c, s, Record(p, x)), Logged(s.ops[p], x, x !in s.lh);
    CountUpdate(s.ops, p, o);
    assert OpOk(c, s.lh, s.ops[p]);
    assert x !in s.lh ==> x !in s.ops[p].logged && |o.logged| == |s.ops[p].logged| + 1;
    assert x in s.ops[p].logged ==> o.logged == s.ops[p].logged;
    assert |o.logged| >= |s.ops[p].logged|;
    assert OpOk(c, t.lh, o);
    assert forall q | 0 <= q < |s.ops| :: OpOk(c, s.lh, s.ops[q]) ==> OpOk(c, t.lh, s.ops[q]);
  }

  lemma EndBooks(c: Config, s: State, p: nat)
    requires Sane(c) && BooksOk(c, s) && Enabled(c, s, End(p))
    ensures BooksOk(c, Do(c, s, End(p)))
  {
    BudgetBound(s.ops, c.share);
    CountUpdate(s.ops, p, Idle);
  }

  lemma OtherBooks(c: Config, s: State, st: Step)
    requires Sane(c) && BooksOk(c, s) && Enabled(c, s, st)
    requires !st.Begin? && !st.Check? && !st.Record? && !st.End?
    ensures BooksOk(c, Do(c, s, st))
  {
    BudgetBound(s.ops, c.share);
    AllIdle(|s.ops|);
  }

  lemma BooksStep(c: Config, s: State, st: Step)
    requires Sane(c) && BooksOk(c, s) && Enabled(c, s, st)
    ensures BooksOk(c, Do(c, s, st))
  {
    match st
    case Begin(p) => BeginBooks(c, s, p);
    case Check(p, x) => CheckBooks(c, s, p, x);
    case Record(p, x) => RecordBooks(c, s, p, x);
    case End(p) => EndBooks(c, s, p);
    case _ => OtherBooks(c, s, st);
  }

  lemma {:induction false} RunBooks(c: Config, ss: seq<State>, sts: seq<Step>, k: nat)
    requires Run(c, ss, sts) && k < |ss|
    ensures BooksOk(c, ss[k])
  {
    if k == 0 {
      AllIdle(c.procs);
    } else {
      RunBooks(c, ss, sts, k - 1);
      BooksStep(c, ss[k - 1], sts[k - 1]);
    }
  }

  /** The reservation, in every state of every run: an operation that still has a block to add finds
      the log below LOGSIZE, whatever the others append between its unlocked test and its append;
      a log as large as LOGSIZE means that every open operation has used up its share; end_op never
      meets a commit; and begin_op never blocks on an idle log. */
  lemma ReservationHolds(c: Config, ss: seq<State>, sts: seq<Step>, k: nat, p: nat)
    requires Run(c, ss, sts) && k < |ss| && p < c.procs
    ensures var s := ss[k];
            && |s.ops| == c.procs
            && (s.ops[p].Open? ==> s.outstanding >= 1 && !s.committing && |s.lh| + s.ops[p].budget <= Peak(c) <= LOGSIZE)
            && (s.ops[p].Open? && |s.lh| >= LOGSIZE ==> s.ops[p].budget == 0)
            && (s.ops[p].Idle? && s.outstanding == 0 && s.phase.Normal? ==> s.lh == [] && Enabled(c, s, Begin(p)))
  {
    RunBooks(c, ss, sts, k);
    BudgetBound(ss[k].ops, c.share);
  }

  /** An operation all of whose log_write calls are for blocks of a set of at most share ones may
      make every one of them, in any order and as often as it likes. */
  lemma ShareFits(c: Config, s: State, p: nat, x: nat, blocks: set<nat>)
    requires BooksOk(c, s) && p < |s.ops| && s.ops[p].Open?
    requires s.ops[p].logged + {x} <= blocks && |blocks| <= c.share
    ensures x in s.lh || s.ops[p].budget > 0
  {
    assert OpOk(c, s.lh, s.ops[p]);
    if x !in s.lh {
      Smaller(s.ops[p].logged, blocks, x);
    }
  }

  lemma Smaller(a: set<nat>, b: set<nat>, x: nat)
    requires a + {x} <= b && x !in a
    ensures |a| < |b|
  {
    var c := b - {x};
    assert a <= c;
    Subset(a, c);
  }
}
