/**
 What the scheduler of module Mlfq does when nothing interrupts it: its first pass
 finds the best level that has a runnable process, its second pass dispatches the
 first process there, and from any position it dispatches somebody within a bound.
 */
module MlfqPicks {
  import opened Mlfq

  /** k scheduler steps and nothing else, up to a dispatch. */
  function SchedRun(k: nat): Run { if k == 0 then Start else Then(SchedRun(k - 1), Sched) }

  function Scheds(s: State, k: nat): State {
    if k == 0 then s
    else
      var t := Scheds(s, k - 1);
      if t.pc.On? then t else Scheduled(t)
  }

  lemma {:induction false} SchedsAreRuns(s: State, k: nat)
    requires Inv(s)
    ensures After(s, SchedRun(k)) == Scheds(s, k)
  {
    if k > 0 {
      SchedsAreRuns(s, k - 1);
      AfterThen(s, SchedRun(k - 1), Sched);
    }
  }

  predicate FirstAt(procs: seq<Proc>, level: int, j: nat) {
    RunnableAt(procs, level, j) && forall i: nat :: i < j ==> !RunnableAt(procs, level, i)
  }

  /** The best level and its first process exist if any process is runnable. */
  lemma BestExists(s: State) returns (level: int, j: nat)
    requires Inv(s) && AnyRunnable(s.procs)
    ensures 0 <= level <= 3 && BestLevel(s.procs, level) && FirstAt(s.procs, level, j)
  {
    var q: nat :| q < |s.procs| && s.procs[q].status == Runnable;
    assert InvAt(s, q);
    level := LowestFrom(s, 0, q);
    var w: nat :| RunnableAt(s.procs, level, w);
    j := FirstBelow(s.procs, level, w);
  }

  lemma LowestFrom(s: State, low: int, q: nat) returns (level: int)
    requires Inv(s) && 0 <= low && q < |s.procs| && s.procs[q].status == Runnable && low <= s.procs[q].level <= 3
    requires forall j: nat :: j < |s.procs| && s.procs[j].status == Runnable ==> low <= s.procs[j].level
    ensures low <= level <= 3 && BestLevel(s.procs, level)
    decreases 3 - low
  {
    if exists j: nat :: RunnableAt(s.procs, low, j) {
      level := low;
    } else {
      assert !RunnableAt(s.procs, low, q);
      forall j: nat | j < |s.procs| && s.procs[j].status == Runnable
        ensures low + 1 <= s.procs[j].level
      {
        assert !RunnableAt(s.procs, low, j);
      }
      level := LowestFrom(s, low + 1, q);
    }
  }

  lemma FirstBelow(procs: seq<Proc>, level: int, w: nat) returns (j: nat)
    requires RunnableAt(procs, level, w)
    ensures j <= w && FirstAt(procs, level, j)
  {
    if i: nat :| i < w && RunnableAt(procs, level, i) {
      j := FirstBelow(procs, level, i);
    } else {
      j := w;
    }
  }

  /** k steps lead from s to t; only a proof that names Scheds unfolds this. */
  ghost predicate Leads(s: State, k: nat, t: State) {
    forall m {:trigger Scheds(s, m)} :: m == k ==> Scheds(s, m) == t
  }

  lemma LeadsOn(s: State, k: nat, t: State)
    requires Leads(s, k, t) && !t.pc.On?
    ensures Leads(s, k + 1, Scheduled(t))
  {
    assert Scheds(s, k + 1) == Scheduled(Scheds(s, k));
  }

  // ---------- The two passes ----------

  /** Steps of a scan before level l: each level takes n + 1. */
  function Rows(l: nat, n: nat): nat { if l == 0 then 0 else Rows(l - 1, n) + n + 1 }

  lemma {:induction false} RowsIs(l: nat, n: nat)
    ensures Rows(l, n) == l * (n + 1)
  {
    if l > 0 { RowsIs(l - 1, n); }
  }

  /** Nothing before level l, entry i, is runnable. */
  ghost predicate NoneBefore(procs: seq<Proc>, l: nat, i: nat) {
    && (forall k: nat, j: nat :: k < l ==> !RunnableAt(procs, k, j))
    && (forall j: nat :: j < i ==> !RunnableAt(procs, l, j))
  }

  lemma BestMeansNone(procs: seq<Proc>, level: nat, j: nat)
    requires BestLevel(procs, level) && FirstAt(procs, level, j)
    ensures NoneBefore(procs, level, j) && j < |procs|
  {
  }

  lemma ScanStep(s: State, k: nat, l: nat, i: nat)
    requires Leads(s, k, s.(pc := Scan(l, i))) && i < |s.procs| && !RunnableAt(s.procs, l, i)
    ensures Leads(s, k + 1, s.(pc := Scan(l, i + 1)))
  {
    LeadsOn(s, k, s.(pc := Scan(l, i)));
  }

  lemma RowEnd(s: State, k: nat, l: nat)
    requires Leads(s, k, s.(pc := Scan(l, |s.procs|))) && l < 3
    ensures Leads(s, k + 1, s.(pc := Scan(l + 1, 0)))
  {
    LeadsOn(s, k, s.(pc := Scan(l, |s.procs|)));
  }

  /** Then the scan comes by there. */
  lemma {:induction false} ScanReaches(s: State, l: nat, i: nat)
    requires s.pc == Scan(0, 0) && l <= 3 && i <= |s.procs| && NoneBefore(s.procs, l, i)
    ensures Leads(s, Rows(l, |s.procs|) + i, s.(pc := Scan(l, i)))
    decreases l, i
  {
    var n := |s.procs|;
    if i > 0 {
      ScanReaches(s, l, i - 1);
      ScanStep(s, Rows(l, n) + (i - 1), l, i - 1);
    } else if l > 0 {
      assert NoneBefore(s.procs, l - 1, n);
      ScanReaches(s, l - 1, n);
      RowEnd(s, Rows(l - 1, n) + n, l - 1);
    } else {
      assert Scheds(s, 0) == s.(pc := Scan(0, 0));
    }
  }

  /** The first pass ends exactly at the best level. */
  lemma ScanFindsBest(s: State, level: nat, j: nat)
    requires s.pc == Scan(0, 0) && level <= 3 && BestLevel(s.procs, level) && FirstAt(s.procs, level, j)
    ensures Leads(s, Rows(level, |s.procs|) + j + 1, s.(pc := Serve(level, 0)))
  {
    BestMeansNone(s.procs, level, j);
    ScanReaches(s, level, j);
    LeadsOn(s, Rows(level, |s.procs|) + j, s.(pc := Scan(level, j)));
  }

  lemma ServeStep(s: State, k: nat, level: int, i: nat)
    requires Leads(s, k, s.(pc := Serve(level, i))) && i < |s.procs| && !RunnableAt(s.procs, level, i)
    ensures Leads(s, k + 1, s.(pc := Serve(level, i + 1)))
  {
    LeadsOn(s, k, s.(pc := Serve(level, i)));
  }

  ghost predicate NoneBetween(procs: seq<Proc>, level: int, lo: nat, hi: nat) {
    forall i: nat :: lo <= i < hi ==> !RunnableAt(procs, level, i)
  }

  lemma {:induction false} ServeReaches(s: State, k: nat, level: int, lo: nat, i: nat)
    requires Leads(s, k, s.(pc := Serve(level, lo)))
    requires lo <= i <= |s.procs| && NoneBetween(s.procs, level, lo, i)
    ensures Leads(s, k + (i - lo), s.(pc := Serve(level, i)))
  {
    if i > lo {
      ServeReaches(s, k, level, lo, i - 1);
      assert !RunnableAt(s.procs, level, i - 1);
      ServeStep(s, k + (i - 1 - lo), level, i - 1);
    }
  }

  lemma ServeDispatches(s: State, k: nat, level: int, j: nat)
    requires Leads(s, k, s.(pc := Serve(level, j))) && RunnableAt(s.procs, level, j)
    ensures Leads(s, k + 1, s.(procs := s.procs[j := Dispatched(s.procs[j])], pc := On(level, j)))
  {
    LeadsOn(s, k, s.(pc := Serve(level, j)));
  }

  /**
   From the start of a scan, and without interruption, the process dispatched is the
   first one at the best level, after level * (NPROC + 1) + 2 * j + 2 steps.
   */
  lemma SchedulerPicks(s: State, level: nat, j: nat)
    requires s.pc == Scan(0, 0) && level <= 3 && BestLevel(s.procs, level) && FirstAt(s.procs, level, j)
    ensures Scheds(s, level * (|s.procs| + 1) + 2 * j + 2) ==
      s.(procs := s.procs[j := Dispatched(s.procs[j])], pc := On(level, j))
  {
    RowsIs(level, |s.procs|);
    var k := PickedAfter(s, level, j);
  }

  lemma PickedAfter(s: State, level: nat, j: nat) returns (k: nat)
    requires s.pc == Scan(0, 0) && level <= 3 && BestLevel(s.procs, level) && FirstAt(s.procs, level, j)
    ensures k == Rows(level, |s.procs|) + 2 * j + 2
    ensures Leads(s, k, s.(procs := s.procs[j := Dispatched(s.procs[j])], pc := On(level, j)))
  {
    k := Rows(level, |s.procs|) + j + 1;
    ScanFindsBest(s, level, j);
    ServeReaches(s, k, level, 0, j);
    ServeDispatches(s, k + j, level, j);
    k := k + j + 1;
  }

  /**
   The second pass goes on after a process leaves the CPU: without interruption the next one
   dispatched is the next runnable one behind it at the level being served.
   */
  lemma PassGoesOn(s: State, st: Step, j: nat)
    requires Inv(s) && s.pc.On? && Enabled(s, st) && (st.Clock? || st.Sleep? || st.Exit?)
    requires s.pc.i < j && RunnableAt(Do(s, st).procs, s.pc.target, j)
    requires NoneBetween(Do(s, st).procs, s.pc.target, s.pc.i + 1, j)
    ensures
      var t := Do(s, st);
      Scheds(t, j - s.pc.i) == t.(procs := t.procs[j := Dispatched(t.procs[j])], pc := On(s.pc.target, j))
  {
    Continues(Do(s, st), s.pc.target, s.pc.i + 1, j);
  }

  lemma Continues(t: State, level: int, lo: nat, j: nat)
    requires t.pc == Serve(level, lo) && lo <= j && RunnableAt(t.procs, level, j) && NoneBetween(t.procs, level, lo, j)
    ensures Scheds(t, j - lo + 1) == t.(procs := t.procs[j := Dispatched(t.procs[j])], pc := On(level, j))
  {
    ServeReaches(t, 0, level, lo, j);
    ServeDispatches(t, j - lo, level, j);
  }

  /** If nobody behind it is runnable there, the scheduler starts a new scan from level 0. */
  lemma PassEnds(s: State, st: Step)
    requires Inv(s) && s.pc.On? && Enabled(s, st) && (st.Clock? || st.Sleep? || st.Exit?)
    requires NoneBetween(Do(s, st).procs, s.pc.target, s.pc.i + 1, |s.procs|)
    ensures Scheds(Do(s, st), |s.procs| - s.pc.i) == Do(s, st).(pc := Scan(0, 0))
  {
    var t, n := Do(s, st), |s.procs|;
    ServeReaches(t, 0, s.pc.target, s.pc.i + 1, n);
    LeadsOn(t, n - s.pc.i - 1, t.(pc := Serve(s.pc.target, n)));
  }

  // ---------- What changes a status ----------

  /** The step moves process i from status x to status y. */
  predicate Moves(s: State, st: Step, i: nat, x: Status, y: Status) {
    match (x, y)
    case (Unused, Used) => st == Alloc(i)
    case (Used, Runnable) => st == Ready(i)
    case (Runnable, Running) => st.Sched? && Dispatches(s) && s.pc.i == i
    case (Running, Runnable) => st.Clock? && !st.killed
    case (Running, Sleeping) => st.Sleep?
    case (Running, Zombie) => st.Exit? || (st.Clock? && st.killed)
    case (Sleeping, Runnable) => st == Wake(i) || (st.Clock? && i in st.woken)
    case (Used, Unused) => st == Release(i)
    case (Zombie, Unused) => st == Release(i)
    case _ => false
  }

  /** A status changes exactly by the step that is for that change. */
  lemma StatusMoves(s: State, st: Step, i: nat, y: Status)
    requires Inv(s) && Enabled(s, st) && i < |s.procs| && y != s.procs[i].status
    ensures Do(s, st).procs[i].status == y <==> Moves(s, st, i, s.procs[i].status, y)
  {
    assert InvAt(s, i);
  }

  // ---------- From any position ----------

  /** Steps until the scheduler is at the start of a scan, or has dispatched somebody. */
  function ToStart(pc: Pc, n: nat): int {
    match pc
    case Scan(level, i) =>
      if level == 0 && i == 0 then 0
      else if level <= 0 then 5 * n + 5 - i
      else if level == 1 then 4 * n + 4 - i
      else if level == 2 then 3 * n + 3 - i
      else 2 * n + 2 - i
    case Serve(_, i) => n - i + 1
    case On(_, _) => 0
  }

  lemma StartCloser(s: State)
    requires PcOk(s.pc, |s.procs|) && !s.pc.On? && s.pc != Scan(0, 0)
    ensures
      var t := Scheduled(s);
      && PcOk(t.pc, |s.procs|) && (t.pc.On? || t.procs == s.procs)
      && 0 <= ToStart(t.pc, |s.procs|) < ToStart(s.pc, |s.procs|)
  {
  }

  lemma {:induction false} ReachesStart(s: State, k: nat) returns (m: nat)
    requires var t := Scheds(s, k); PcOk(t.pc, |s.procs|) && (t.pc.On? || t.procs == s.procs)
    ensures m <= k + ToStart(Scheds(s, k).pc, |s.procs|)
    ensures var t := Scheds(s, m); t.pc.On? || (t.pc == Scan(0, 0) && t.procs == s.procs)
    decreases ToStart(Scheds(s, k).pc, |s.procs|)
  {
    var t := Scheds(s, k);
    if t.pc.On? || t.pc == Scan(0, 0) {
      m := k;
    } else {
      StartCloser(t);
      assert Scheds(s, k + 1) == Scheduled(t);
      m := ReachesStart(s, k + 1);
    }
  }

  lemma {:induction false} SchedsJoin(s: State, m: nat, k: nat)
    ensures Scheds(s, m + k) == Scheds(Scheds(s, m), k)
  {
    if k > 0 { SchedsJoin(s, m, k - 1); }
  }

  lemma LeadsJoin(s: State, m: nat, t: State, k: nat, u: State)
    requires Leads(s, m, t) && Leads(t, k, u)
    ensures Leads(s, m + k, u)
  {
    SchedsJoin(s, m, k);
  }

  lemma PickedSoon(s: State, m: nat, t: State, level: nat, j: nat) returns (k: nat, u: State)
    requires Leads(s, m, t) && level <= 3 && t.pc == Scan(0, 0)
    requires BestLevel(t.procs, level) && FirstAt(t.procs, level, j)
    ensures k <= m + 5 * (|t.procs| + 1) && Leads(s, k, u) && u.pc.On?
  {
    var d := PickedAfter(t, level, j);
    u := t.(procs := t.procs[j := Dispatched(t.procs[j])], pc := On(level, j));
    LeadsJoin(s, m, t, d, u);
    RowsIs(level, |t.procs|);
    LevelBound(level, |t.procs|, j);
    k := m + d;
  }

  lemma LevelBound(level: nat, n: nat, j: nat)
    requires level <= 3 && j < n
    ensures level * (n + 1) + 2 * j + 2 <= 5 * (n + 1)
  {
    assert level * (n + 1) <= 3 * (n + 1);
  }

  /** From any state with a runnable process, the scheduler alone dispatches one within 10 * (NPROC + 1) steps. */
  lemma DispatchesSoon(s: State) returns (k: nat)
    requires Inv(s) && !s.pc.On? && AnyRunnable(s.procs)
    ensures k <= 10 * (|s.procs| + 1) && After(s, SchedRun(k)).pc.On?
  {
    var m := ReachesStart(s, 0);
    k := m;
    var u := Scheds(s, m);
    if !u.pc.On? {
      var level, j := BestExists(s);
      k, u := PickedSoon(s, m, u, level, j);
    }
    assert Scheds(s, k) == u;
    SchedsAreRuns(s, k);
  }
}
