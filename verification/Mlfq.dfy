/**
 The multi-level feedback queue of kernel/proc.c with the clock interrupt of
 kernel/trap.c: the tick and boost rules on one process, the scheduler of one CPU
 as a machine whose steps interleave with interrupts and system calls, and the
 loops over the process table.
 */
module Mlfq {

  // ---------- One process ----------

  datatype Status = Unused | Used | Sleeping | Runnable | Running | Zombie

  // calls: total_syscalls; received and plain are history since allocproc: the
  // ticks received, and whether no system call and no boost has happened; made: the
  // calls made since the quantum began or, before its first tick, since the dispatch
  datatype Proc = Proc(
    status: Status, level: int, ticksAt: nat, perLevel: seq<nat>, calls: nat, temp: int, scheduled: nat,
    received: nat, plain: bool, made: nat)

  function Quantum(level: int): nat {
    if level == 1 then 4 else if level == 2 then 8 else if level == 3 then 16 else 2
  }

  function Sum4(s: seq<nat>): nat
    requires |s| == 4
  {
    s[0] + s[1] + s[2] + s[3]
  }

  /** The level, and the ticks spent in the current quantum, after t ticks without system calls or boosts. */
  function LevelAfter(t: nat): int {
    if t < 2 then 0 else if t < 6 then 1 else if t < 14 then 2 else 3
  }

  function SliceAfter(t: nat): nat {
    if t < 2 then t else if t < 6 then t - 2 else if t < 14 then t - 6 else (t - 14) % 16
  }

  predicate ProcOk(p: Proc) {
    && 0 <= p.level <= 3 && p.ticksAt < Quantum(p.level) && (p.status != Unused ==> p.made == p.calls - p.temp)
    && |p.perLevel| == 4 && Sum4(p.perLevel) == p.received
    && (p.plain ==>
          p.calls == 0 && p.temp == 0 && p.level == LevelAfter(p.received) && p.ticksAt == SliceAfter(p.received))
  }

  /** mlfq_tick. */
  function Ticked(p: Proc): Proc
    requires 0 <= p.level < |p.perLevel|
  {
    var q := p.(
      ticksAt := p.ticksAt + 1, perLevel := p.perLevel[p.level := p.perLevel[p.level] + 1], received := p.received + 1);
    if q.ticksAt >= Quantum(q.level) then
      q.(level := if q.calls - q.temp < q.ticksAt && q.level < 3 then q.level + 1 else q.level,
         ticksAt := 0, temp := q.calls, made := 0)
    else
      q
  }

  /** global_boost on one process. */
  function Boosted(p: Proc): Proc {
    if p.status == Runnable then p.(level := 0, ticksAt := 0, temp := p.calls, plain := false, made := 0) else p
  }

  /** The dispatch in the scheduler's second pass. */
  function Dispatched(p: Proc): Proc {
    p.(status := Running, scheduled := p.scheduled + 1, temp := if p.ticksAt == 0 then p.calls else p.temp,
       made := if p.ticksAt == 0 then 0 else p.made)
  }

  function Called(p: Proc): Proc { p.(calls := p.calls + 1, plain := false, made := p.made + 1) }

  /** allocproc. */
  function Fresh(p: Proc): Proc {
    p.(status := Used, calls := 0, level := 0, ticksAt := 0, perLevel := [0, 0, 0, 0],
       temp := 0, received := 0, plain := true, made := 0)
  }

  /**
   A tick keeps the process in order. It moves the process down exactly when the
   quantum is used up, the calls made in it are fewer than its ticks and there is
   a lower level, and it never moves a process up.
   */
  lemma TickKeeps(p: Proc)
    requires ProcOk(p)
    ensures ProcOk(Ticked(p))
    ensures p.status != Unused ==> (Ticked(p).level == p.level + 1 <==>
      p.ticksAt + 1 == Quantum(p.level) && p.made < Quantum(p.level) && p.level < 3)
    ensures Ticked(p).level != p.level + 1 ==> Ticked(p).level == p.level
  {
  }

  lemma OthersKeep(p: Proc)
    requires ProcOk(p)
    ensures ProcOk(Boosted(p)) && ProcOk(Fresh(p))
    ensures (p.status != Unused ==> ProcOk(Dispatched(p)) && ProcOk(Called(p)))
  {
  }

  // ---------- One CPU ----------

  // Scan(level, i): first pass, about to look at process i. Serve(target, i): second
  // pass, about to look at process i. On(target, i): process i is running.
  datatype Pc = Scan(level: int, i: nat) | Serve(target: int, i: nat) | On(target: int, i: nat)

  datatype State = State(procs: seq<Proc>, pc: Pc, ticks: nat)

  datatype Step =
    | Sched                       // one iteration of either pass
    // timer interrupt, which wakes processes that sleep on ticks; a killed process
    // that it interrupts in user mode exits before mlfq_tick
    | Clock(woken: set<nat>, killed: bool)
    | Syscall
    | Sleep
    | Exit
    | Wake(j: nat)                // wakeup or kkill of a sleeper
    | Alloc(j: nat)
    | Ready(j: nat)
    | Release(j: nat)             // freeproc

  const BOOST_PERIOD: nat := 128

  predicate Enabled(s: State, st: Step) {
    match st
    case Sched => !s.pc.On?
    case Clock(woken, killed) =>
      (killed ==> s.pc.On?) && forall j :: j in woken ==> j < |s.procs| && s.procs[j].status == Sleeping
    case Syscall => s.pc.On?
    case Sleep => s.pc.On?
    case Exit => s.pc.On?
    case Wake(j) => j < |s.procs| && s.procs[j].status == Sleeping
    case Alloc(j) => s.pc.On? && j < |s.procs| && s.procs[j].status == Unused
    case Ready(j) => s.pc.On? && j < |s.procs| && s.procs[j].status == Used
    case Release(j) => s.pc.On? && j < |s.procs| && (s.procs[j].status == Used || s.procs[j].status == Zombie)
  }

  function WokenAt(woken: set<nat>, boost: bool, i: nat, p: Proc): Proc {
    var q := if i in woken then p.(status := Runnable) else p;
    if boost then Boosted(q) else q
  }

  /** clockintr on the table: wakeup(&ticks), then the boost every 128 ticks. */
  function Clocked(procs: seq<Proc>, woken: set<nat>, boost: bool): (r: seq<Proc>)
    ensures |r| == |procs|
  {
    seq(|procs|, i requires 0 <= i < |procs| => WokenAt(woken, boost, i, procs[i]))
  }

  function Scheduled(s: State): State
    requires !s.pc.On?
  {
    var n := |s.procs|;
    if s.pc.Scan? then
      if s.pc.i < n then
        if s.procs[s.pc.i].status == Runnable && s.procs[s.pc.i].level == s.pc.level then s.(pc := Serve(s.pc.level, 0))
        else s.(pc := Scan(s.pc.level, s.pc.i + 1))
      else if s.pc.level < 3 then s.(pc := Scan(s.pc.level + 1, 0))
      else s.(pc := Scan(0, 0))
    else if s.pc.i < n then
      if Dispatches(s) then s.(procs := s.procs[s.pc.i := Dispatched(s.procs[s.pc.i])], pc := On(s.pc.target, s.pc.i))
      else s.(pc := Serve(s.pc.target, s.pc.i + 1))
    else s.(pc := Scan(0, 0))
  }

  /** The next scheduler step dispatches the process at its index. */
  predicate Dispatches(s: State) {
    s.pc.Serve? && s.pc.i < |s.procs| && s.procs[s.pc.i].level == s.pc.target && s.procs[s.pc.i].status == Runnable
  }

  /** The running process gives up the CPU. */
  function Leave(s: State, p: Proc): State
    requires s.pc.On? && s.pc.i < |s.procs|
  {
    s.(procs := s.procs[s.pc.i := p], pc := Serve(s.pc.target, s.pc.i + 1))
  }

  /** clockintr, then, if a process runs, mlfq_tick and yield, or its exit. */
  function Interrupted(s: State, woken: set<nat>, killed: bool): State
    requires Inv(s)
  {
    var s1 := s.(ticks := s.ticks + 1, procs := Clocked(s.procs, woken, (s.ticks + 1) % BOOST_PERIOD == 0));
    if !s.pc.On? then s1
    else
      var p := s.procs[s.pc.i];
      assert ProcOk(p);
      Leave(s1, if killed then p.(status := Zombie) else Ticked(p).(status := Runnable))
  }

  function Do(s: State, st: Step): State
    requires Inv(s) && Enabled(s, st)
  {
    match st
    case Sched => Scheduled(s)
    case Clock(woken, killed) => Interrupted(s, woken, killed)
    case Syscall => s.(procs := s.procs[s.pc.i := Called(s.procs[s.pc.i])])
    case Sleep => Leave(s, s.procs[s.pc.i].(status := Sleeping))
    case Exit => Leave(s, s.procs[s.pc.i].(status := Zombie))
    case Wake(j) => s.(procs := s.procs[j := s.procs[j].(status := Runnable)])
    case Alloc(j) => s.(procs := s.procs[j := Fresh(s.procs[j])])
    case Ready(j) => s.(procs := s.procs[j := s.procs[j].(status := Runnable)])
    case Release(j) => s.(procs := s.procs[j := s.procs[j].(status := Unused, calls := 0, plain := false)])
  }

  predicate PcOk(pc: Pc, n: nat) {
    match pc
    case Scan(level, i) => 0 <= level <= 3 && i <= n
    case Serve(target, i) => 0 <= target <= 3 && i <= n
    case On(target, i) => 0 <= target <= 3 && i < n
  }

  ghost predicate InvAt(s: State, i: nat) {
    i < |s.procs| ==> ProcOk(s.procs[i]) && (s.procs[i].status == Running <==> s.pc.On? && s.pc.i == i)
  }

  /** Every process is in order, and exactly the process the CPU is on is running. */
  ghost predicate Inv(s: State) {
    PcOk(s.pc, |s.procs|) && forall i: nat {:trigger InvAt(s, i)} {:trigger s.procs[i]} :: InvAt(s, i)
  }

  lemma SchedKeeps(s: State, i: nat)
    requires Inv(s) && !s.pc.On?
    ensures InvAt(Scheduled(s), i)
  {
  }

  lemma ClockKeeps(s: State, woken: set<nat>, killed: bool, i: nat)
    requires Inv(s) && Enabled(s, Clock(woken, killed))
    ensures InvAt(Interrupted(s, woken, killed), i)
  {
    assert InvAt(s, i);
    var boost := (s.ticks + 1) % BOOST_PERIOD == 0;
    var t := Interrupted(s, woken, killed);
    if i < |s.procs| {
      WokenKeeps(woken, boost, i, s.procs[i]);
      TickKeeps(s.procs[i]);
      assert !(s.pc.On? && s.pc.i == i) ==> t.procs[i] == WokenAt(woken, boost, i, s.procs[i]);
    }
  }

  lemma WokenKeeps(woken: set<nat>, boost: bool, i: nat, p: Proc)
    requires ProcOk(p) && (i in woken ==> p.status == Sleeping)
    ensures ProcOk(WokenAt(woken, boost, i, p))
    ensures WokenAt(woken, boost, i, p).status == Running <==> p.status == Running
  {
  }

  lemma StepKeeps(s: State, st: Step)
    requires Inv(s) && Enabled(s, st)
    ensures Inv(Do(s, st)) && |Do(s, st).procs| == |s.procs|
  {
    var t := Do(s, st);
    forall i: nat
      ensures InvAt(t, i)
    {
      if st.Sched? {
        SchedKeeps(s, i);
      } else if st.Clock? {
        ClockKeeps(s, st.woken, st.killed, i);
      } else {
        assert InvAt(s, i);
      }
    }
  }

  // ---------- Runs ----------

  /** After userinit: process 0 is ready, the rest of the table is unused. */
  function Boot(n: nat): State
    requires n > 0
  {
    var blank := Proc(Unused, 0, 0, [0, 0, 0, 0], 0, 0, 0, 0, false, 0);
    State(seq(n, i requires 0 <= i < n => if i == 0 then Fresh(blank).(status := Runnable) else blank), Scan(0, 0), 0)
  }

  datatype Run = Start | Then(pre: Run, step: Step)

  /** The state after a run; steps that are not enabled do nothing. */
  ghost function After(s: State, r: Run): (t: State)
    requires Inv(s)
    ensures Inv(t) && |t.procs| == |s.procs|
  {
    match r
    case Start => s
    case Then(pre, st) =>
      var t := After(s, pre);
      if Enabled(t, st) then StepKeeps(t, st); Do(t, st) else t
  }

  /**
   In every state the kernel can reach, every process is at a level 0 to 3 with
   fewer ticks than the level's quantum, its ticks per level sum to the ticks it
   received, and one that made no call and saw no boost is where its ticks put it.
   */
  lemma ReachableInOrder(n: nat, r: Run, i: nat)
    requires n > 0 && i < n
    ensures Inv(Boot(n))
    ensures
      var p := After(Boot(n), r).procs[i];
      && 0 <= p.level <= 3 && p.ticksAt < Quantum(p.level) && |p.perLevel| == 4 && Sum4(p.perLevel) == p.received
      && (p.plain ==> p.level == LevelAfter(p.received) && p.ticksAt == SliceAfter(p.received))
  {
  }

  // ---------- Bounded waiting ----------

  predicate Waiting(s: State, p: nat) {
    p < |s.procs| && s.procs[p].status == Runnable && s.procs[p].level == 0
  }

  /** Process p is dispatched by the step. */
  predicate Serves(s: State, st: Step, p: nat) { st.Sched? && Dispatches(s) && s.pc.i == p }

  predicate ServesOther(s: State, st: Step, p: nat) { st.Sched? && Dispatches(s) && s.pc.i != p }

  /** How many other processes can still be dispatched before p, which waits at level 0. */
  function Ahead(pc: Pc, n: nat, p: nat): int {
    match pc
    case Scan(level, i) => if level == 0 && i <= p then p else n - 1 + p
    case Serve(target, i) => if i > p then n - i + p else if target == 0 then p - i else n - i - 1 + p
    case On(target, i) => if i >= p then n - i - 1 + p else if target == 0 then p - i - 1 else n - i - 2 + p
  }

  /** How many scheduler steps can still pass before p is dispatched. */
  function StepsAhead(pc: Pc, n: nat, p: nat): int {
    match pc
    case Scan(level, i) =>
      if level == 0 && i <= p then p - i + 1 + p else (3 - level) * (n + 1) + (n - i) + 1 + n + 1 + 2 * p + 2
    case Serve(target, i) => if target == 0 && i <= p then p - i else n - i + 1 + 2 * p + 1
    case On(target, i) => if target == 0 && i < p then p - i - 1 else n - i + 2 * p + 1
  }

  lemma SchedCloser(s: State, p: nat)
    requires Inv(s) && !s.pc.On? && Waiting(s, p) && !(Dispatches(s) && s.pc.i == p)
    ensures Waiting(Scheduled(s), p)
    ensures Ahead(Scheduled(s).pc, |s.procs|, p) <= Ahead(s.pc, |s.procs|, p) - (if Dispatches(s) then 1 else 0)
    ensures StepsAhead(Scheduled(s).pc, |s.procs|, p) <= StepsAhead(s.pc, |s.procs|, p) - 1
  {
  }

  lemma StepCloser(s: State, st: Step, p: nat)
    requires Inv(s) && Enabled(s, st) && Waiting(s, p) && !Serves(s, st, p)
    ensures Waiting(Do(s, st), p)
    ensures Ahead(Do(s, st).pc, |s.procs|, p) <= Ahead(s.pc, |s.procs|, p) - (if ServesOther(s, st, p) then 1 else 0)
    ensures StepsAhead(Do(s, st).pc, |s.procs|, p) <= StepsAhead(s.pc, |s.procs|, p) - (if st.Sched? then 1 else 0)
  {
    if st.Sched? {
      SchedCloser(s, p);
    } else {
      assert InvAt(s, p);
    }
  }

  /** Process p is dispatched during the run. */
  ghost predicate Served(s: State, r: Run, p: nat)
    requires Inv(s)
  {
    r.Then? && (Served(s, r.pre, p) || Serves(After(s, r.pre), r.step, p))
  }

  /** The dispatches of other processes, and the scheduler steps, of a run. */
  ghost function Others(s: State, r: Run, p: nat): nat
    requires Inv(s)
  {
    if r.Start? then 0 else Others(s, r.pre, p) + if ServesOther(After(s, r.pre), r.step, p) then 1 else 0
  }

  ghost function SchedSteps(s: State, r: Run): nat
    requires Inv(s)
  {
    if r.Start? then 0 else SchedSteps(s, r.pre) + if r.step.Sched? && Enabled(After(s, r.pre), r.step) then 1 else 0
  }

  lemma {:induction false} RunCloser(s: State, r: Run, p: nat)
    requires Inv(s) && Waiting(s, p) && !Served(s, r, p)
    ensures Waiting(After(s, r), p)
    ensures Others(s, r, p) + Ahead(After(s, r).pc, |s.procs|, p) <= Ahead(s.pc, |s.procs|, p)
    ensures SchedSteps(s, r) + StepsAhead(After(s, r).pc, |s.procs|, p) <= StepsAhead(s.pc, |s.procs|, p)
  {
    if r.Then? {
      RunCloser(s, r.pre, p);
      var t := After(s, r.pre);
      if Enabled(t, r.step) { StepCloser(t, r.step, p); }
    }
  }

  lemma AheadBounds(pc: Pc, n: nat, p: nat)
    requires PcOk(pc, n) && p < n && !(pc.On? && pc.i == p)
    ensures 0 <= Ahead(pc, n, p) <= 2 * n - 2 && 0 <= StepsAhead(pc, n, p) <= 7 * n + 4
  {
  }

  /**
   Bounded waiting: from any reachable moment at which process p is runnable at
   level 0, a run in which p is not dispatched dispatches other processes at most
   2 * NPROC - 2 times, and the scheduler takes at most 7 * NPROC + 4 steps in it.
   */
  lemma BoundedWaiting(s: State, r: Run, p: nat)
    requires Inv(s) && Waiting(s, p) && !Served(s, r, p)
    ensures Others(s, r, p) <= 2 * |s.procs| - 2 && SchedSteps(s, r) <= 7 * |s.procs| + 4
  {
    RunCloser(s, r, p);
    assert InvAt(s, p);
    var t := After(s, r);
    assert InvAt(t, p);
    AheadBounds(s.pc, |s.procs|, p);
    AheadBounds(t.pc, |s.procs|, p);
  }

  /** A clock tick that boosts leaves every process that was runnable waiting at level 0. */
  lemma BoostWaits(s: State, woken: set<nat>, killed: bool, p: nat)
    requires Inv(s) && Enabled(s, Clock(woken, killed)) && (s.ticks + 1) % BOOST_PERIOD == 0
    requires p < |s.procs| && (s.procs[p].status == Runnable || p in woken)
    ensures Waiting(Do(s, Clock(woken, killed)), p)
  {
  }

  /**
   A boost resets a process below level 0 exactly when it is runnable; a running or
   sleeping one keeps its level or sinks.
   */
  lemma BoostResetsIff(s: State, woken: set<nat>, killed: bool, i: nat)
    requires Inv(s) && Enabled(s, Clock(woken, killed)) && (s.ticks + 1) % BOOST_PERIOD == 0
    requires i < |s.procs| && s.procs[i].level != 0
    ensures Do(s, Clock(woken, killed)).procs[i].level == 0 <==> s.procs[i].status == Runnable || i in woken
  {
  }

  // A run from boot with one process that sinks to level 1, sleeps, and is still there
  // after the boost at tick 128

  function Lone(status: Status, level: int, ticksAt: nat, perLevel: seq<nat>, scheduled: nat, received: nat): Proc {
    Proc(status, level, ticksAt, perLevel, 0, 0, scheduled, received, true, 0)
  }

  lemma Go(s0: State, r: Run, st: Step, s: State, t: State)
    requires Inv(s0) && After(s0, r) == s && Enabled(s, st) && Do(s, st) == t
    ensures After(s0, Then(r, st)) == t
  {
    AfterThen(s0, r, st);
  }

  lemma AfterThen(s0: State, r: Run, st: Step)
    requires Inv(s0)
    ensures After(s0, Then(r, st)) == if Enabled(After(s0, r), st) then Do(After(s0, r), st) else After(s0, r)
  {
  }

  function Quiet(r: Run, k: nat): Run { if k == 0 then r else Then(Quiet(r, k - 1), Clock({}, false)) }

  /** A lone process at level 0 is dispatched and gets a tick that does not boost. */
  lemma TickTop(s0: State, r: Run, p: Proc, q: Proc, ticks: nat) returns (r': Run)
    requires Inv(s0) && After(s0, r) == State([p], Scan(0, 0), ticks) && ticks < 127
    requires p.status == Runnable && p.level == 0 && ProcOk(p) && q == Ticked(Dispatched(p)).(status := Runnable)
    ensures After(s0, r') == State([q], Scan(0, 0), ticks + 1)
  {
    var o := Dispatched(p);
    var on := State([o], On(0, 0), ticks);
    var r1 := Then(r, Sched);
    var r2 := Then(r1, Sched);
    var r3 := Then(r2, Clock({}, false));
    Go(s0, r, Sched, State([p], Scan(0, 0), ticks), State([p], Serve(0, 0), ticks));
    Go(s0, r1, Sched, State([p], Serve(0, 0), ticks), on);
    assert Clocked([o], {}, false) == [o];
    Go(s0, r2, Clock({}, false), on, State([q], Serve(0, 1), ticks + 1));
    Go(s0, r3, Sched, State([q], Serve(0, 1), ticks + 1), State([q], Scan(0, 0), ticks + 1));
    r' := Then(r3, Sched);
  }

  /** A lone process at level 1 is dispatched after the scan of level 0, and goes to sleep. */
  lemma SleepAtOne(s0: State, r: Run, p: Proc, ticks: nat) returns (r': Run)
    requires Inv(s0) && After(s0, r) == State([p], Scan(0, 0), ticks) && p.status == Runnable && p.level == 1
    ensures After(s0, r') == State([Dispatched(p).(status := Sleeping)], Serve(1, 1), ticks)
  {
    var r1 := Then(r, Sched);
    var r2 := Then(r1, Sched);
    var r3 := Then(r2, Sched);
    var r4 := Then(r3, Sched);
    Go(s0, r, Sched, State([p], Scan(0, 0), ticks), State([p], Scan(0, 1), ticks));
    Go(s0, r1, Sched, State([p], Scan(0, 1), ticks), State([p], Scan(1, 0), ticks));
    Go(s0, r2, Sched, State([p], Scan(1, 0), ticks), State([p], Serve(1, 0), ticks));
    Go(s0, r3, Sched, State([p], Serve(1, 0), ticks), State([Dispatched(p)], On(1, 0), ticks));
    Go(s0, r4, Sleep, State([Dispatched(p)], On(1, 0), ticks),
       State([Dispatched(p).(status := Sleeping)], Serve(1, 1), ticks));
    r' := Then(r4, Sleep);
  }

  lemma SleepOn(s0: State, r: Run, p: Proc, ticks: nat)
    requires Inv(s0) && After(s0, r) == State([p], Serve(1, 1), ticks) && p.status == Sleeping
    ensures After(s0, Then(r, Clock({}, false))) == State([p], Serve(1, 1), ticks + 1)
  {
    var s := State([p], Serve(1, 1), ticks);
    assert Clocked([p], {}, (ticks + 1) % BOOST_PERIOD == 0) == [p];
    Go(s0, r, Clock({}, false), s, State([p], Serve(1, 1), ticks + 1));
  }

  /** Clock ticks, boosts among them, leave a lone sleeper alone. */
  lemma {:induction false} Sleeps(s0: State, r: Run, p: Proc, ticks: nat, k: nat)
    requires Inv(s0) && After(s0, r) == State([p], Serve(1, 1), ticks) && p.status == Sleeping
    ensures After(s0, Quiet(r, k)) == State([p], Serve(1, 1), ticks + k)
  {
    if k > 0 {
      Sleeps(s0, r, p, ticks, k - 1);
      SleepOn(s0, Quiet(r, k - 1), p, ticks + (k - 1));
    }
  }

  lemma FirstTick()
    ensures Ticked(Dispatched(Lone(Runnable, 0, 0, [0, 0, 0, 0], 0, 0))).(status := Runnable) ==
      Lone(Runnable, 0, 1, [1, 0, 0, 0], 1, 1)
  {
  }

  lemma SecondTick()
    ensures Ticked(Dispatched(Lone(Runnable, 0, 1, [1, 0, 0, 0], 1, 1))).(status := Runnable) ==
      Lone(Runnable, 1, 0, [2, 0, 0, 0], 2, 2)
  {
  }

  lemma BootsLone()
    ensures Boot(1) == State([Lone(Runnable, 0, 0, [0, 0, 0, 0], 0, 0)], Scan(0, 0), 0) && Inv(Boot(1))
  {
  }

  lemma Sink() returns (r: Run)
    ensures Inv(Boot(1)) && After(Boot(1), r) == State([Lone(Runnable, 1, 0, [2, 0, 0, 0], 2, 2)], Scan(0, 0), 2)
  {
    BootsLone();
    FirstTick();
    SecondTick();
    var b := Lone(Runnable, 0, 1, [1, 0, 0, 0], 1, 1);
    r := TickTop(Boot(1), Start, Lone(Runnable, 0, 0, [0, 0, 0, 0], 0, 0), b, 0);
    r := TickTop(Boot(1), r, b, Lone(Runnable, 1, 0, [2, 0, 0, 0], 2, 2), 1);
  }

  lemma SinkAndSleep() returns (r: Run)
    ensures Inv(Boot(1)) && After(Boot(1), r) == State([Lone(Sleeping, 1, 0, [2, 0, 0, 0], 3, 2)], Serve(1, 1), 2)
  {
    r := Sink();
    r := SleepAtOne(Boot(1), r, Lone(Runnable, 1, 0, [2, 0, 0, 0], 2, 2), 2);
  }

  /** Not every process is back at level 0 after a boost: the kernel can reach a state where a sleeper is not. */
  lemma BoostCanMiss()
    ensures Inv(Boot(1))
    ensures exists r: Run ::
      && After(Boot(1), r).ticks == BOOST_PERIOD - 1 && Enabled(After(Boot(1), r), Clock({}, false))
      && After(Boot(1), Then(r, Clock({}, false))).procs[0].level == 1
  {
    var r := SinkAndSleep();
    var c := Lone(Sleeping, 1, 0, [2, 0, 0, 0], 3, 2);
    Sleeps(Boot(1), r, c, 2, 125);
    Sleeps(Boot(1), r, c, 2, 126);
    assert Quiet(r, 126) == Then(Quiet(r, 125), Clock({}, false));
  }

  lemma BoostServes(s: State, woken: set<nat>, killed: bool, r: Run, p: nat)
    requires Inv(s) && Enabled(s, Clock(woken, killed)) && (s.ticks + 1) % BOOST_PERIOD == 0
    requires p < |s.procs| && (s.procs[p].status == Runnable || p in woken)
    ensures Inv(Do(s, Clock(woken, killed)))
    ensures
      var t := Do(s, Clock(woken, killed));
      !Served(t, r, p) ==> Others(t, r, p) <= 2 * |s.procs| - 2 && SchedSteps(t, r) <= 7 * |s.procs| + 4
  {
    StepKeeps(s, Clock(woken, killed));
    BoostWaits(s, woken, killed, p);
    var t := Do(s, Clock(woken, killed));
    if !Served(t, r, p) { BoundedWaiting(t, r, p); }
  }

  // ---------- The best level ----------

  predicate RunnableAt(procs: seq<Proc>, level: int, j: nat) {
    j < |procs| && procs[j].status == Runnable && procs[j].level == level
  }

  predicate AnyRunnable(procs: seq<Proc>) { exists j: nat :: j < |procs| && procs[j].status == Runnable }

  /** Some process is runnable at this level and none above it. */
  ghost predicate BestLevel(procs: seq<Proc>, level: int) {
    && (exists j: nat :: RunnableAt(procs, level, j))
    && (forall j: nat :: j < |procs| && procs[j].status == Runnable ==> level <= procs[j].level)
  }

  // ---------- The loops over the process table ----------

  ghost predicate AllOk(ps: seq<Proc>) { forall i :: 0 <= i < |ps| ==> ProcOk(ps[i]) }

  class Table {
    const procs: array<Proc>

    constructor (n: nat)
      requires n > 0
      ensures fresh(procs) && procs[..] == Boot(n).procs && AllOk(procs[..])
    {
      var blank := Proc(Unused, 0, 0, [0, 0, 0, 0], 0, 0, 0, 0, false, 0);
      procs := new Proc[n](_ => blank);
      new;
      procs[0] := Fresh(procs[0]).(status := Runnable);
    }

    method MlfqTick(i: nat)
      requires AllOk(procs[..]) && i < procs.Length
      modifies procs
      ensures AllOk(procs[..]) && procs[..] == old(procs[..])[i := Ticked(old(procs[i]))]
    {
      TickKeeps(procs[..][i]);
      var p := procs[i];
      p := p.(ticksAt := p.ticksAt + 1, received := p.received + 1);
      p := p.(perLevel := p.perLevel[p.level := p.perLevel[p.level] + 1]);
      var quantum := 2;
      if p.level == 1 { quantum := 4; } else if p.level == 2 { quantum := 8; } else if p.level == 3 { quantum := 16; }
      if p.ticksAt >= quantum {
        if p.calls - p.temp < p.ticksAt && p.level < 3 { p := p.(level := p.level + 1); }
        p := p.(ticksAt := 0, temp := p.calls, made := 0);
      }
      procs[i] := p;
    }

    method GlobalBoost()
      requires AllOk(procs[..])
      modifies procs
      ensures AllOk(procs[..]) && procs[..] == Clocked(old(procs[..]), {}, true)
    {
      for i := 0 to procs.Length
        invariant forall j :: 0 <= j < i ==> procs[j] == Boosted(old(procs[j])) && ProcOk(procs[j])
        invariant forall j :: i <= j < procs.Length ==> procs[j] == old(procs[j])
      {
        assert ProcOk(old(procs[..])[i]);
        OthersKeep(procs[i]);
        if procs[i].status == Runnable {
          procs[i] := procs[i].(level := 0, ticksAt := 0, temp := procs[i].calls, plain := false, made := 0);
        }
      }
    }

    /** The scheduler's first pass: the best level with a runnable process, or -1. */
    method FindLevel() returns (level: int)
      requires AllOk(procs[..])
      ensures level == -1 <==> forall i :: 0 <= i < procs.Length ==> procs[i].status != Runnable
      ensures level != -1 ==>
        && (exists i :: 0 <= i < procs.Length && procs[i].status == Runnable && procs[i].level == level)
        && (forall i :: 0 <= i < procs.Length && procs[i].status == Runnable ==> level <= procs[i].level)
      ensures if level == -1 then !AnyRunnable(procs[..]) else BestLevel(procs[..], level)
    {
      assert forall i :: 0 <= i < procs.Length ==> ProcOk(procs[..][i]);
      level := -1;
      var l := 0;
      while l < 4 && level == -1
        invariant 0 <= l <= 4 && level == -1
        invariant forall i :: 0 <= i < procs.Length && procs[i].status == Runnable ==> l <= procs[i].level
      {
        var i := 0;
        while i < procs.Length
          invariant 0 <= i <= procs.Length
          invariant forall j :: 0 <= j < i && procs[j].status == Runnable ==> procs[j].level != l
        {
          if procs[i].status == Runnable && procs[i].level == l {
            level := l;
            assert RunnableAt(procs[..], l, i);
            return;
          }
          i := i + 1;
        }
        l := l + 1;
      }
    }
  }
}
