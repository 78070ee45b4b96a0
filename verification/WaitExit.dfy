/**
 Exit, wait, sleep and wakeup of kernel/proc.c as a protocol of steps taken by
 the processes of a table in any order. A step is what happens between two
 points where another process could get in; wait_lock is explicit, and a process
 that holds its own p->lock blocks the steps that need that lock.
 */
module WaitExit {

  datatype Option<T> = None | Some(value: T)

  datatype Life = UNUSED | USED | SLEEPING | RUNNABLE | RUNNING | ZOMBIE

  // A sleep channel: none, the address of table entry i, or anything else
  datatype Chan = NoChan | OnProc(i: nat) | Other

  // Where a process is in kfork, kexit, kwait and sleep
  datatype Pc =
    | User
    | ForkLink(np: nat)                 // allocproc done, parent not set
    | ForkRun(np: nat)                  // parent set, not yet RUNNABLE
    | Reparent(k: nat)                  // kexit: reparent's loop
    | ReparentWake(k: nat, j: nat)      // kexit: wakeup(initproc) for entry k
    | ExitWake(j: nat)                  // kexit: wakeup(p->parent)
    | ExitSwitch                        // ZOMBIE, holds p->lock until switched out
    | Gone                              // ZOMBIE, off its stack
    | WaitScan(k: nat, kids: bool)      // kwait's loop
    | WaitFound(k: nat, pid: nat)       // both locks dropped for copyout
    | WaitFree(k: nat, pid: nat)        // wait_lock taken again
    | SleepLocked                       // sleep: holds p->lock and wait_lock
    | SleepWindow                       // sleep: released wait_lock, holds p->lock
    | Asleep                            // sleep: called sched
    | WaitReacquire                     // sleep: woken, about to take wait_lock

  datatype Proc = Proc(life: Life, chan: Chan, parent: Option<nat>, pid: nat, killed: bool, pc: Pc)

  const NoProc := Proc(UNUSED, NoChan, None, 0, false, User)

  // reaped: which parent freed the zombie with a given pid
  datatype State = State(
    procs: seq<Proc>, init: nat, waitLock: Option<nat>, nextPid: nat, reaped: map<nat, nat>)

  datatype Step =
    | Fork(p: nat, np: nat) | ForkAbort(p: nat) | LinkChild(p: nat) | RunChild(p: nat)
    | ExitStart(p: nat) | ReparentOne(p: nat) | WakeOne(p: nat) | ExitZombie(p: nat) | Switch(p: nat)
    | WaitStart(p: nat) | ScanOne(p: nat) | ScanEnd(p: nat)
    | SleepRelease(p: nat) | SleepCommit(p: nat) | Resume(p: nat) | Reacquire(p: nat)
    | Retake(p: nat) | FreeChild(p: nat)
    | Dispatch(p: nat) | Yield(p: nat) | Kill(p: nat) | SleepOther(p: nat) | WakeOther(p: nat)

  // ---------- Transitions ----------

  function Set(s: State, p: nat, x: Proc): State
    requires p < |s.procs|
  {
    s.(procs := s.procs[p := x])
  }

  function SetPc(s: State, p: nat, pc: Pc): State
    requires p < |s.procs|
  {
    Set(s, p, s.procs[p].(pc := pc))
  }

  /** The process holds its own p->lock across steps. */
  predicate Locked(x: Proc) { x.pc.SleepLocked? || x.pc.SleepWindow? || x.pc.ExitSwitch? }

  predicate Runs(s: State, p: nat) { p < |s.procs| && s.procs[p].life.RUNNING? }

  /** One iteration of wakeup(chan) by process p at table entry j. */
  function Woken(s: State, p: nat, j: nat, chan: Chan): State
    requires j < |s.procs|
  {
    if j != p && s.procs[j].life.SLEEPING? && s.procs[j].chan == chan
    then Set(s, j, s.procs[j].(life := RUNNABLE)) else s
  }

  /** Where a process may sleep on something else: copyout in kwait and uvmcopy in kfork may wait for swap. */
  predicate MaySleep(pc: Pc) { pc.User? || pc.WaitFound? || pc.ForkLink? }

  predicate Enabled(s: State, step: Step) {
    var p := step.p;
    var n := |s.procs|;
    p < n &&
    match step
    case Fork(_, np) => Runs(s, p) && s.procs[p].pc.User? && np < n && np != p && s.procs[np].life.UNUSED?
    case ForkAbort(_) => Runs(s, p) && s.procs[p].pc.ForkLink? && s.procs[p].pc.np < n
    case LinkChild(_) => Runs(s, p) && s.procs[p].pc.ForkLink? && s.procs[p].pc.np < n && s.waitLock.None?
    case RunChild(_) => Runs(s, p) && s.procs[p].pc.ForkRun? && s.procs[p].pc.np < n
    case ExitStart(_) => Runs(s, p) && s.procs[p].pc.User? && p != s.init && s.waitLock.None?
    case ReparentOne(_) => Runs(s, p) && s.procs[p].pc.Reparent?
    case WakeOne(_) =>
      && Runs(s, p)
      && (match s.procs[p].pc
          case ReparentWake(_, j) => j < n ==> j == p || !Locked(s.procs[j])
          case ExitWake(j) => j < n && (j == p || !Locked(s.procs[j]))
          case _ => false)
    case ExitZombie(_) => Runs(s, p) && s.procs[p].pc == ExitWake(n)
    case Switch(_) => s.procs[p].pc.ExitSwitch?
    case WaitStart(_) => Runs(s, p) && s.procs[p].pc.User? && s.waitLock.None?
    case ScanOne(_) =>
      && Runs(s, p) && s.procs[p].pc.WaitScan? && s.procs[p].pc.k < n
      && (s.procs[s.procs[p].pc.k].parent == Some(p) ==> !Locked(s.procs[s.procs[p].pc.k]))
    case ScanEnd(_) => Runs(s, p) && s.procs[p].pc.WaitScan? && s.procs[p].pc.k >= n
    case SleepRelease(_) => Runs(s, p) && s.procs[p].pc.SleepLocked?
    case SleepCommit(_) => Runs(s, p) && s.procs[p].pc.SleepWindow?
    case Resume(_) => Runs(s, p) && s.procs[p].pc.Asleep?
    case Reacquire(_) => Runs(s, p) && s.procs[p].pc.WaitReacquire? && s.waitLock.None?
    case Retake(_) => Runs(s, p) && s.procs[p].pc.WaitFound? && s.waitLock.None?
    case FreeChild(_) =>
      Runs(s, p) && s.procs[p].pc.WaitFree? && s.procs[p].pc.k < n && !Locked(s.procs[s.procs[p].pc.k])
    case Dispatch(_) => s.procs[p].life.RUNNABLE?
    case Yield(_) => Runs(s, p) && !Locked(s.procs[p])
    case Kill(_) => !Locked(s.procs[p])
    case SleepOther(_) => Runs(s, p) && MaySleep(s.procs[p].pc)
    case WakeOther(_) => s.procs[p].life.SLEEPING? && s.procs[p].chan.Other?
  }

  function Do(s: State, step: Step): State
    requires Enabled(s, step)
  {
    var p := step.p;
    var x := s.procs[p];
    match step
    case Fork(_, np) => Forked(s, p, np)
    case ForkAbort(_) => Aborted(s, p, x.pc.np)
    case LinkChild(_) => SetPc(Set(s, x.pc.np, s.procs[x.pc.np].(parent := Some(p))), p, ForkRun(x.pc.np))
    case RunChild(_) => ChildStarted(s, p, x.pc.np)
    case ExitStart(_) => SetPc(s, p, Reparent(0)).(waitLock := Some(p))
    case ReparentOne(_) => ReparentedOne(s, p, x.pc.k)
    case WakeOne(_) => WokenOne(s, p)
    case ExitZombie(_) => Set(s, p, x.(life := ZOMBIE, pc := ExitSwitch)).(waitLock := None)
    case Switch(_) => SetPc(s, p, Gone)
    case WaitStart(_) => SetPc(s, p, WaitScan(0, false)).(waitLock := Some(p))
    case ScanOne(_) => ScannedOne(s, p, x.pc.k, x.pc.kids)
    case ScanEnd(_) =>
      if !x.pc.kids || x.killed then SetPc(s, p, User).(waitLock := None) else SetPc(s, p, SleepLocked)
    case SleepRelease(_) => SetPc(s, p, SleepWindow).(waitLock := None)
    case SleepCommit(_) => Set(s, p, x.(chan := OnProc(p), life := SLEEPING, pc := Asleep))
    case Resume(_) => Set(s, p, x.(chan := NoChan, pc := WaitReacquire))
    case Reacquire(_) => SetPc(s, p, WaitScan(0, false)).(waitLock := Some(p))
    case Retake(_) => SetPc(s, p, WaitFree(x.pc.k, x.pc.pid)).(waitLock := Some(p))
    case FreeChild(_) =>
      SetPc(Set(s, x.pc.k, NoProc), p, User).(
        waitLock := None, reaped := s.reaped[s.procs[x.pc.k].pid := p])
    case Dispatch(_) => Set(s, p, x.(life := RUNNING))
    case Yield(_) => Set(s, p, x.(life := RUNNABLE))
    case Kill(_) => Set(s, p, x.(killed := true, life := if x.life.SLEEPING? then RUNNABLE else x.life))
    case SleepOther(_) => Set(s, p, x.(chan := Other, life := SLEEPING))
    case WakeOther(_) => Set(s, p, x.(life := RUNNABLE))
  }

  function Forked(s: State, p: nat, np: nat): State
    requires p < |s.procs| && np < |s.procs|
  {
    SetPc(Set(s, np, s.procs[np].(life := USED, pid := s.nextPid)), p, ForkLink(np)).(nextPid := s.nextPid + 1)
  }

  /** Entry np leaves the table, its creator returns from kfork with an error. */
  function Aborted(s: State, p: nat, np: nat): State
    requires p < |s.procs| && np < |s.procs|
  {
    SetPc(Set(s, np, NoProc), p, User)
  }

  function ChildStarted(s: State, p: nat, np: nat): State
    requires p < |s.procs| && np < |s.procs|
  {
    SetPc(Set(s, np, s.procs[np].(life := RUNNABLE)), p, User)
  }

  function ReparentedOne(s: State, p: nat, k: nat): State
    requires p < |s.procs|
  {
    if k >= |s.procs| then SetPc(s, p, ExitWake(0))
    else if s.procs[k].parent == Some(p) then
      SetPc(Set(s, k, s.procs[k].(parent := Some(s.init))), p, ReparentWake(k, 0))
    else SetPc(s, p, Reparent(k + 1))
  }

  function WokenOne(s: State, p: nat): State
    requires p < |s.procs|
  {
    match s.procs[p].pc
    case ReparentWake(k, j) =>
      if j < |s.procs| then SetPc(Woken(s, p, j, OnProc(s.init)), p, ReparentWake(k, j + 1))
      else SetPc(s, p, Reparent(k + 1))
    case ExitWake(j) =>
      if j < |s.procs| then
        var chan := if s.procs[p].parent.Some? then OnProc(s.procs[p].parent.value) else NoChan;
        SetPc(Woken(s, p, j, chan), p, ExitWake(j + 1))
      else s
    case _ => s
  }

  function ScannedOne(s: State, p: nat, k: nat, kids: bool): State
    requires p < |s.procs| && k < |s.procs|
  {
    if s.procs[k].parent == Some(p) then
      if s.procs[k].life.ZOMBIE? then SetPc(s, p, WaitFound(k, s.procs[k].pid)).(waitLock := None)
      else SetPc(s, p, WaitScan(k + 1, true))
    else SetPc(s, p, WaitScan(k + 1, kids))
  }

  datatype Run = Boot | Then(pre: Run, step: Step)

  predicate Legal(s: State, run: Run)
    decreases run, 0
  {
    run.Then? ==> Legal(s, run.pre) && Enabled(Exec(s, run.pre), run.step)
  }

  function Exec(s: State, run: Run): State
    requires Legal(s, run)
    decreases run, 1
  {
    match run
    case Boot => s
    case Then(pre, step) => Do(Exec(s, pre), step)
  }

  // ---------- Invariant ----------

  predicate HoldsWaitLock(pc: Pc) {
    pc.Reparent? || pc.ReparentWake? || pc.ExitWake? || pc.WaitScan? || pc.WaitFree? || pc.SleepLocked?
  }

  predicate Alive(x: Proc) { x.life.SLEEPING? || x.life.RUNNABLE? || x.life.RUNNING? }

  /** Asleep in kwait, or past the point of no return on the way there. */
  predicate Dozes(x: Proc) { x.pc.SleepWindow? || (x.pc.Asleep? && x.life.SLEEPING?) }

  /** What holds of one table entry whatever the others do. */
  predicate EntryOk(init: nat, p: nat, x: Proc) {
    && (x.life.ZOMBIE? <==> x.pc.ExitSwitch? || x.pc.Gone?)
    && (x.life.UNUSED? ==> x.pc.User? && x.chan.NoChan? && x.parent.None?)
    && (x.life.USED? ==> x.pc.User? && x.chan.NoChan?)
    && (x.pc.Asleep? ==> x.chan == OnProc(p))
    && (x.chan.OnProc? ==> x.pc.Asleep?)
    && (x.life.SLEEPING? ==> x.pc.Asleep? || MaySleep(x.pc))
    && (x.pc.SleepWindow? || x.pc.SleepLocked? ==> x.life.RUNNING?)
    && (x.pc.Reparent? || x.pc.ReparentWake? || x.pc.ExitWake? || x.life.ZOMBIE? ==> p != init)
  }

  ghost predicate ProcOk(s: State, p: nat) {
    && p < |s.procs| && EntryOk(s.init, p, s.procs[p])
    && (HoldsWaitLock(s.procs[p].pc) <==> s.waitLock == Some(p))
    && (s.procs[p].parent.Some? ==> s.procs[p].parent.value < |s.procs|)
    && (s.procs[p].life.UNUSED? || (s.procs[p].pid < s.nextPid && s.procs[p].pid !in s.reaped))
  }

  /** What p's program counter says about another entry. */
  ghost predicate TargetOk(s: State, p: nat) {
    p < |s.procs| &&
    match s.procs[p].pc
    case WaitFound(k, pid) => Found(s, p, k, pid)
    case WaitFree(k, pid) => Found(s, p, k, pid)
    case ForkLink(np) => np < |s.procs| && np != p && s.procs[np].life.USED? && s.procs[np].parent.None?
    case ForkRun(np) => np < |s.procs| && np != p && s.procs[np].life.USED? && s.procs[np].parent == Some(p)
    case _ => true
  }

  /** Entry k is a zombie child of p with that pid. */
  ghost predicate Found(s: State, p: nat, k: nat, pid: nat) {
    k < |s.procs| && s.procs[k].life.ZOMBIE? && s.procs[k].parent == Some(p) && s.procs[k].pid == pid
  }

  /** The exiting process e is inside the wakeup that will still reach entry p. */
  predicate WillWake(s: State, p: nat) {
    && s.waitLock.Some? && s.waitLock.value < |s.procs|
    && s.procs[s.waitLock.value].pc.ReparentWake? && p == s.init && s.procs[s.waitLock.value].pc.j <= p
  }

  /** A parent p and its child c. */
  ghost predicate ChildOk(s: State, p: nat, c: nat) {
    p < |s.procs| && c < |s.procs| && s.procs[c].parent == Some(p) ==>
      && Alive(s.procs[p])
      && (Dozes(s.procs[p]) && s.procs[c].life.ZOMBIE? ==> WillWake(s, p))
      && (Dozes(s.procs[p]) && s.procs[c].pc.ExitWake? ==> s.procs[c].pc.j <= p)
      && match s.procs[p].pc
         case Reparent(k) => c >= k
         case ReparentWake(k, _) => c > k
         case ExitWake(_) => false
         case WaitScan(k, _) => s.procs[c].life.ZOMBIE? ==> c >= k
         case SleepLocked => !s.procs[c].life.ZOMBIE?
         case _ => true
  }

  /** Two entries: distinct pids, and distinct children being forked. */
  ghost predicate PairOk(s: State, p: nat, q: nat) {
    p < |s.procs| && q < |s.procs| && p != q ==>
      && (s.procs[p].life.UNUSED? || s.procs[q].life.UNUSED? || s.procs[p].pid != s.procs[q].pid)
      && (Forks(s.procs[p].pc).None? || Forks(s.procs[p].pc) != Forks(s.procs[q].pc))
  }

  function Forks(pc: Pc): Option<nat> {
    match pc
    case ForkLink(np) => Some(np)
    case ForkRun(np) => Some(np)
    case _ => None
  }

  ghost predicate Inv(s: State) {
    && s.init < |s.procs| && Alive(s.procs[s.init])
    && (s.waitLock.Some? ==> s.waitLock.value < |s.procs|)
    && (forall pid :: pid in s.reaped ==> pid < s.nextPid)
    && (forall p: nat {:trigger ProcOk(s, p)} :: p < |s.procs| ==> ProcOk(s, p))
    && (forall p: nat {:trigger TargetOk(s, p)} :: p < |s.procs| ==> TargetOk(s, p))
    && (forall p: nat, c: nat {:trigger ChildOk(s, p, c)} :: ChildOk(s, p, c))
    && (forall p: nat, q: nat {:trigger PairOk(s, p, q)} :: PairOk(s, p, q))
  }

  /** The invariant at entries q and c. */
  ghost predicate At(s: State, q: nat, c: nat) {
    ProcOk(s, q) && TargetOk(s, q) && ChildOk(s, q, c) && PairOk(s, q, c)
  }

  lemma Facts(s: State, p: nat, q: nat, c: nat)
    requires Inv(s) && p < |s.procs| && q < |s.procs| && c < |s.procs|
    ensures At(s, q, c) && At(s, p, c) && At(s, p, q) && At(s, c, q) && At(s, q, p)
  {
  }

  // ---------- Steps that change one entry a little ----------

  predicate Plain(pc: Pc) {
    pc.User? || pc.Asleep? || pc.WaitReacquire? || pc.SleepWindow? || pc.ExitSwitch? || pc.Gone?
  }

  /** Entry p changes from x to y without taking part in anything that concerns the others. */
  predicate Mild(init: nat, p: nat, x: Proc, y: Proc) {
    && EntryOk(init, p, y) && y.parent == x.parent && y.pid == x.pid
    && (y.pc == x.pc || (Plain(x.pc) && Plain(y.pc)))
    && (y.life == x.life || (Alive(x) && Alive(y))) && (Dozes(y) ==> Dozes(x))
  }

  lemma MildChild(s: State, p: nat, y: Proc, q: nat, c: nat)
    requires p < |s.procs| && q < |s.procs| && c < |s.procs| && Mild(s.init, p, s.procs[p], y) && ChildOk(s, q, c)
    ensures ChildOk(Set(s, p, y), q, c)
  {
  }

  lemma MildTarget(s: State, p: nat, y: Proc, q: nat)
    requires p < |s.procs| && q < |s.procs| && Mild(s.init, p, s.procs[p], y) && TargetOk(s, q)
    ensures TargetOk(Set(s, p, y), q)
  {
  }

  lemma MildKeeps(s: State, p: nat, y: Proc, q: nat, c: nat)
    requires Inv(s) && p < |s.procs| && q < |s.procs| && c < |s.procs| && Mild(s.init, p, s.procs[p], y)
    ensures At(Set(s, p, y), q, c)
  {
    assert ProcOk(s, p) && ProcOk(s, q) && TargetOk(s, q) && ChildOk(s, q, c) && PairOk(s, q, c);
    MildTarget(s, p, y, q);
    MildChild(s, p, y, q, c);
  }

  /** Inv from its instances. */
  lemma Assemble(s: State, t: State)
    requires Inv(s) && |t.procs| == |s.procs| && t.init == s.init && Alive(t.procs[t.init])
    requires (t.waitLock.Some? ==> t.waitLock.value < |t.procs|) && forall pid :: pid in t.reaped ==> pid < t.nextPid
    requires forall q: nat, c: nat {:trigger At(t, q, c)} :: q < |t.procs| && c < |t.procs| ==> At(t, q, c)
    ensures Inv(t)
  {
    forall q: nat
      ensures q < |t.procs| ==> ProcOk(t, q) && TargetOk(t, q)
    {
      if q < |t.procs| { assert At(t, q, q); }
    }
    forall q: nat, c: nat
      ensures ChildOk(t, q, c) && PairOk(t, q, c)
    {
      if q < |t.procs| && c < |t.procs| { assert At(t, q, c); }
    }
  }

  lemma MildStep(s: State, p: nat, y: Proc)
    requires Inv(s) && p < |s.procs| && Mild(s.init, p, s.procs[p], y)
    ensures Inv(Set(s, p, y))
  {
    var t := Set(s, p, y);
    forall q: nat, c: nat | q < |t.procs| && c < |t.procs|
      ensures At(t, q, c)
    {
      MildKeeps(s, p, y, q, c);
    }
    Assemble(s, t);
  }

  lemma LocalSteps(s: State, step: Step)
    requires Inv(s) && Enabled(s, step)
    requires
      || step.Switch? || step.SleepCommit? || step.Resume? || step.Dispatch? || step.Yield? || step.Kill?
      || step.SleepOther? || step.WakeOther?
    ensures Inv(Do(s, step))
  {
    assert ProcOk(s, step.p);
    MildStep(s, step.p, Do(s, step).procs[step.p]);
  }

  // ---------- Taking and dropping wait_lock ----------

  function TookLock(s: State, p: nat, pc: Pc): State
    requires p < |s.procs|
  {
    SetPc(s, p, pc).(waitLock := Some(p))
  }

  predicate CanTake(s: State, p: nat, pc: Pc) {
    && Runs(s, p) && s.waitLock.None?
    && match s.procs[p].pc
       case User => pc == WaitScan(0, false) || (pc == Reparent(0) && p != s.init)
       case WaitReacquire => pc == WaitScan(0, false)
       case WaitFound(k, pid) => pc == WaitFree(k, pid)
       case _ => false
  }

  lemma TakeKeeps(s: State, p: nat, pc: Pc, q: nat, c: nat)
    requires Inv(s) && CanTake(s, p, pc) && q < |s.procs| && c < |s.procs|
    ensures At(TookLock(s, p, pc), q, c)
  {
    Facts(s, p, q, c);
  }

  lemma TakeStep(s: State, p: nat, pc: Pc)
    requires Inv(s) && CanTake(s, p, pc)
    ensures Inv(TookLock(s, p, pc))
  {
    var t := TookLock(s, p, pc);
    forall q: nat, c: nat | q < |t.procs| && c < |t.procs|
      ensures At(t, q, c)
    {
      TakeKeeps(s, p, pc, q, c);
    }
    Assemble(s, t);
  }

  function DroppedLock(s: State, p: nat, pc: Pc): State
    requires p < |s.procs|
  {
    SetPc(s, p, pc).(waitLock := None)
  }

  predicate CanDrop(s: State, p: nat, pc: Pc) {
    && Runs(s, p)
    && match s.procs[p].pc
       case SleepLocked => pc == SleepWindow
       case WaitScan(k, _) =>
         || pc == User
         || (&& k < |s.procs| && s.procs[k].life.ZOMBIE? && s.procs[k].parent == Some(p)
             && pc == WaitFound(k, s.procs[k].pid))
       case _ => false
  }

  lemma DropKeeps(s: State, p: nat, pc: Pc, q: nat, c: nat)
    requires Inv(s) && CanDrop(s, p, pc) && q < |s.procs| && c < |s.procs|
    ensures At(DroppedLock(s, p, pc), q, c)
  {
    Facts(s, p, q, c);
  }

  lemma DropStep(s: State, p: nat, pc: Pc)
    requires Inv(s) && CanDrop(s, p, pc)
    ensures Inv(DroppedLock(s, p, pc))
  {
    var t := DroppedLock(s, p, pc);
    forall q: nat, c: nat | q < |t.procs| && c < |t.procs|
      ensures At(t, q, c)
    {
      DropKeeps(s, p, pc, q, c);
    }
    Assemble(s, t);
  }

  // ---------- The other steps ----------

  lemma AdvanceKeeps(s: State, p: nat, pc: Pc, q: nat, c: nat)
    requires Inv(s) && q < |s.procs| && c < |s.procs| && Runs(s, p) && s.procs[p].pc.WaitScan?
    requires
      var k := s.procs[p].pc.k;
      || (k >= |s.procs| && pc == SleepLocked)
      || (k < |s.procs| && pc.WaitScan? && pc.k == k + 1 && !(s.procs[k].life.ZOMBIE? && s.procs[k].parent == Some(p)))
    ensures At(SetPc(s, p, pc), q, c)
  {
    Facts(s, p, q, c);
  }

  lemma ScanSteps(s: State, step: Step)
    requires Inv(s) && Enabled(s, step) && (step.ScanOne? || step.ScanEnd?)
    ensures Inv(Do(s, step))
  {
    var p, t := step.p, Do(s, step);
    assert ProcOk(s, p);
    if t.waitLock.None? {
      DropStep(s, p, t.procs[p].pc);
    } else {
      forall q: nat, c: nat | q < |t.procs| && c < |t.procs|
        ensures At(t, q, c)
      {
        AdvanceKeeps(s, p, t.procs[p].pc, q, c);
      }
      Assemble(s, t);
    }
  }

  /** reparent finds that entry k is not a child, or that the table is done. */
  lemma SkipKeeps(s: State, p: nat, k: nat, q: nat, c: nat)
    requires Inv(s) && q < |s.procs| && c < |s.procs| && Runs(s, p) && s.procs[p].pc == Reparent(k)
    requires k < |s.procs| ==> s.procs[k].parent != Some(p)
    ensures At(SetPc(s, p, if k < |s.procs| then Reparent(k + 1) else ExitWake(0)), q, c)
  {
    Facts(s, p, q, c);
  }

  function Adopted(s: State, p: nat, k: nat): State
    requires p < |s.procs| && k < |s.procs|
  {
    SetPc(Set(s, k, s.procs[k].(parent := Some(s.init))), p, ReparentWake(k, 0))
  }

  predicate CanAdopt(s: State, p: nat, k: nat) {
    Runs(s, p) && s.procs[p].pc == Reparent(k) && k < |s.procs| && s.procs[k].parent == Some(p)
  }

  lemma AdoptChild(s: State, p: nat, k: nat, q: nat, c: nat)
    requires Inv(s) && q < |s.procs| && c < |s.procs| && CanAdopt(s, p, k)
    ensures ChildOk(Adopted(s, p, k), q, c)
  {
    assert ProcOk(s, p) && ProcOk(s, s.init) && ProcOk(s, q) && ProcOk(s, k);
    assert ChildOk(s, p, k) && ChildOk(s, q, c) && ChildOk(s, p, c);
  }

  lemma AdoptProc(s: State, p: nat, k: nat, q: nat)
    requires Inv(s) && q < |s.procs| && CanAdopt(s, p, k)
    ensures ProcOk(Adopted(s, p, k), q)
  {
    assert ProcOk(s, p) && ProcOk(s, q) && ProcOk(s, k);
  }

  lemma AdoptRest(s: State, p: nat, k: nat, q: nat, c: nat)
    requires Inv(s) && q < |s.procs| && c < |s.procs| && CanAdopt(s, p, k)
    ensures var t := Adopted(s, p, k); TargetOk(t, q) && PairOk(t, q, c)
  {
    assert ProcOk(s, p) && ProcOk(s, q) && ProcOk(s, k) && TargetOk(s, q) && PairOk(s, q, c);
  }

  lemma ReparentKeeps(s: State, p: nat, k: nat, q: nat, c: nat)
    requires Inv(s) && q < |s.procs| && c < |s.procs| && Runs(s, p) && s.procs[p].pc == Reparent(k)
    ensures At(ReparentedOne(s, p, k), q, c)
  {
    if k < |s.procs| && s.procs[k].parent == Some(p) {
      AdoptChild(s, p, k, q, c);
      AdoptProc(s, p, k, q);
      AdoptRest(s, p, k, q, c);
    } else {
      SkipKeeps(s, p, k, q, c);
    }
  }

  lemma ReparentStep(s: State, p: nat)
    requires Inv(s) && Runs(s, p) && s.procs[p].pc.Reparent?
    ensures Inv(ReparentedOne(s, p, s.procs[p].pc.k))
  {
    var t := ReparentedOne(s, p, s.procs[p].pc.k);
    forall q: nat, c: nat | q < |t.procs| && c < |t.procs|
      ensures At(t, q, c)
    {
      ReparentKeeps(s, p, s.procs[p].pc.k, q, c);
    }
    assert ProcOk(s, p);
    Assemble(s, t);
  }

  /** Entry j after wakeup looked at it: not asleep on that channel, unless it is the caller. */
  lemma WokenKeeps(s: State, p: nat, j: nat, chan: Chan)
    requires Inv(s) && p < |s.procs| && j < |s.procs|
    ensures Inv(Woken(s, p, j, chan))
  {
    assert ProcOk(s, j);
    if j != p && s.procs[j].life.SLEEPING? && s.procs[j].chan == chan {
      MildStep(s, j, s.procs[j].(life := RUNNABLE));
    }
  }

  /** The program counter of a waker moves past entry j, which does not doze on its channel. */
  lemma PassKeeps(s: State, p: nat, j: nat, q: nat, c: nat)
    requires Inv(s) && q < |s.procs| && c < |s.procs| && Runs(s, p) && j < |s.procs|
    requires
      match s.procs[p].pc
      case ReparentWake(_, i) => i == j && (j == s.init ==> !Dozes(s.procs[j]))
      case ExitWake(i) => i == j && (s.procs[p].parent == Some(j) ==> !Dozes(s.procs[j]))
      case _ => false
    ensures At(SetPc(s, p, s.procs[p].pc.(j := j + 1)), q, c)
  {
    Facts(s, p, q, c);
  }

  lemma EndReparentWake(s: State, p: nat, q: nat, c: nat)
    requires Inv(s) && q < |s.procs| && c < |s.procs| && Runs(s, p)
    requires s.procs[p].pc.ReparentWake? && s.procs[p].pc.j >= |s.procs|
    ensures At(SetPc(s, p, Reparent(s.procs[p].pc.k + 1)), q, c)
  {
    Facts(s, p, q, c);
  }

  function WakeChan(s: State, p: nat): Chan
    requires p < |s.procs|
  {
    if s.procs[p].pc.ReparentWake? then OnProc(s.init)
    else if s.procs[p].parent.Some? then OnProc(s.procs[p].parent.value) else NoChan
  }

  lemma PassStep(s: State, p: nat, j: nat)
    requires Inv(s) && Enabled(s, WakeOne(p)) && j < |s.procs|
    requires s.procs[p].pc == ExitWake(j) || (s.procs[p].pc.ReparentWake? && s.procs[p].pc.j == j)
    ensures Inv(SetPc(Woken(s, p, j, WakeChan(s, p)), p, s.procs[p].pc.(j := j + 1)))
  {
    assert ProcOk(s, p) && ProcOk(s, j) && ProcOk(s, s.init);
    WokenKeeps(s, p, j, WakeChan(s, p));
    var u := Woken(s, p, j, WakeChan(s, p));
    var t := SetPc(u, p, s.procs[p].pc.(j := j + 1));
    forall q: nat, c: nat | q < |t.procs| && c < |t.procs|
      ensures At(t, q, c)
    {
      PassKeeps(u, p, j, q, c);
    }
    Assemble(u, t);
  }

  lemma WakeStep(s: State, p: nat)
    requires Inv(s) && Enabled(s, WakeOne(p))
    ensures Inv(WokenOne(s, p))
  {
    var t, pc := WokenOne(s, p), s.procs[p].pc;
    if pc.j >= |s.procs| {
      assert ProcOk(s, p);
      forall q: nat, c: nat | q < |t.procs| && c < |t.procs|
        ensures At(t, q, c)
      {
        EndReparentWake(s, p, q, c);
      }
      Assemble(s, t);
    } else {
      PassStep(s, p, pc.j);
    }
  }

  lemma ZombieKeeps(s: State, p: nat, q: nat, c: nat)
    requires Inv(s) && q < |s.procs| && c < |s.procs| && Enabled(s, ExitZombie(p))
    ensures At(Do(s, ExitZombie(p)), q, c)
  {
    Facts(s, p, q, c);
  }

  lemma ForkChild(s: State, p: nat, np: nat, q: nat, c: nat)
    requires Inv(s) && q < |s.procs| && c < |s.procs| && Enabled(s, Fork(p, np))
    ensures ChildOk(Forked(s, p, np), q, c)
  {
    assert ProcOk(s, np) && ChildOk(s, q, c) && ProcOk(s, q);
  }

  lemma ForkPair(s: State, p: nat, np: nat, q: nat, c: nat)
    requires Inv(s) && q < |s.procs| && c < |s.procs| && Enabled(s, Fork(p, np))
    ensures PairOk(Forked(s, p, np), q, c)
  {
    assert ProcOk(s, q) && ProcOk(s, c) && TargetOk(s, q) && TargetOk(s, c) && PairOk(s, q, c);
  }

  lemma ForkKeeps(s: State, p: nat, np: nat, q: nat, c: nat)
    requires Inv(s) && q < |s.procs| && c < |s.procs| && Enabled(s, Fork(p, np))
    ensures At(Forked(s, p, np), q, c)
  {
    ForkChild(s, p, np, q, c);
    ForkPair(s, p, np, q, c);
    assert ProcOk(s, p) && ProcOk(s, q) && ProcOk(s, np) && TargetOk(s, q);
  }

  lemma AbortChild(s: State, p: nat, np: nat, q: nat, c: nat)
    requires Inv(s) && q < |s.procs| && c < |s.procs| && p < |s.procs| && s.procs[p].pc == ForkLink(np)
    ensures np < |s.procs| && ChildOk(Aborted(s, p, np), q, c)
  {
    assert ProcOk(s, p) && ProcOk(s, q) && ProcOk(s, np) && TargetOk(s, p) && ChildOk(s, q, c) && ChildOk(s, np, c);
  }

  lemma AbortKeeps(s: State, p: nat, np: nat, q: nat, c: nat)
    requires Inv(s) && q < |s.procs| && c < |s.procs| && p < |s.procs| && s.procs[p].pc == ForkLink(np)
    ensures np < |s.procs| && At(Aborted(s, p, np), q, c)
  {
    AbortChild(s, p, np, q, c);
    assert ProcOk(s, p) && ProcOk(s, q) && ProcOk(s, np) && TargetOk(s, p) && TargetOk(s, q);
    assert PairOk(s, q, c) && PairOk(s, p, q);
  }

  lemma LinkKeeps(s: State, p: nat, q: nat, c: nat)
    requires Inv(s) && q < |s.procs| && c < |s.procs| && Enabled(s, LinkChild(p))
    ensures At(Do(s, LinkChild(p)), q, c)
  {
    var np := s.procs[p].pc.np;
    assert ProcOk(s, p) && ProcOk(s, q) && ProcOk(s, np) && TargetOk(s, p) && TargetOk(s, q);
    assert PairOk(s, q, c) && PairOk(s, p, q) && ChildOk(s, q, c);
  }

  lemma RunChildChild(s: State, p: nat, np: nat, q: nat, c: nat)
    requires Inv(s) && q < |s.procs| && c < |s.procs| && p < |s.procs| && s.procs[p].pc == ForkRun(np)
    ensures np < |s.procs| && ChildOk(ChildStarted(s, p, np), q, c)
  {
    assert ProcOk(s, p) && ProcOk(s, q) && ProcOk(s, np) && TargetOk(s, p) && ChildOk(s, q, c);
  }

  lemma RunChildKeeps(s: State, p: nat, np: nat, q: nat, c: nat)
    requires Inv(s) && q < |s.procs| && c < |s.procs| && p < |s.procs| && s.procs[p].pc == ForkRun(np)
    ensures np < |s.procs| && At(ChildStarted(s, p, np), q, c)
  {
    RunChildChild(s, p, np, q, c);
    assert ProcOk(s, p) && ProcOk(s, q) && ProcOk(s, np) && TargetOk(s, p) && TargetOk(s, q);
    assert PairOk(s, q, c) && PairOk(s, p, q);
  }

  lemma FreeChildKeeps(s: State, p: nat, q: nat, c: nat)
    requires Inv(s) && q < |s.procs| && c < |s.procs| && Enabled(s, FreeChild(p))
    ensures ChildOk(Do(s, FreeChild(p)), q, c)
  {
    Facts(s, p, q, c);
    Facts(s, s.procs[p].pc.k, q, c);
  }

  lemma FreeKeeps(s: State, p: nat, q: nat, c: nat)
    requires Inv(s) && q < |s.procs| && c < |s.procs| && Enabled(s, FreeChild(p))
    ensures At(Do(s, FreeChild(p)), q, c)
  {
    FreeChildKeeps(s, p, q, c);
    Facts(s, p, q, c);
    Facts(s, s.procs[p].pc.k, q, c);
  }

  /** Steps that concern a parent and its child. */
  predicate OfPairs(step: Step) {
    step.ExitZombie? || step.Fork? || step.ForkAbort? || step.LinkChild? || step.RunChild? || step.FreeChild?
  }

  lemma PairSteps(s: State, step: Step)
    requires Inv(s) && Enabled(s, step) && OfPairs(step)
    ensures Inv(Do(s, step))
  {
    var p, t := step.p, Do(s, step);
    forall q: nat, c: nat | q < |t.procs| && c < |t.procs|
      ensures At(t, q, c)
    {
      if step.ExitZombie? { ZombieKeeps(s, p, q, c); }
      else if step.Fork? { ForkKeeps(s, p, step.np, q, c); }
      else if step.FreeChild? { FreeKeeps(s, p, q, c); }
      else if step.ForkAbort? { AbortKeeps(s, p, s.procs[p].pc.np, q, c); }
      else if step.LinkChild? { LinkKeeps(s, p, q, c); }
      else { RunChildKeeps(s, p, s.procs[p].pc.np, q, c); }
    }
    assert ProcOk(s, p) && TargetOk(s, p);
    if step.FreeChild? { assert ProcOk(s, s.procs[p].pc.k); }
    Assemble(s, t);
  }

  lemma StepKeeps(s: State, step: Step)
    requires Inv(s) && Enabled(s, step)
    ensures Inv(Do(s, step))
  {
    var p, t := step.p, Do(s, step);
    if step.ScanOne? || step.ScanEnd? { ScanSteps(s, step); }
    else if step.ReparentOne? { ReparentStep(s, p); }
    else if step.WakeOne? { WakeStep(s, p); }
    else if step.ExitStart? || step.WaitStart? || step.Reacquire? || step.Retake? { TakeStep(s, p, t.procs[p].pc); }
    else if step.SleepRelease? { DropStep(s, p, SleepWindow); }
    else if OfPairs(step) { PairSteps(s, step); }
    else { LocalSteps(s, step); }
  }

  // ---------- Main results, for every interleaving ----------

  /** userinit: one process, no lock held, nothing freed yet. */
  predicate Initial(s: State) {
    && s.init < |s.procs| && s.procs[s.init] == NoProc.(life := RUNNABLE, pid := 1)
    && (forall p :: 0 <= p < |s.procs| && p != s.init ==> s.procs[p] == NoProc)
    && s.waitLock.None? && s.nextPid == 2 && s.reaped == map[]
  }

  lemma InitialInv(s: State)
    requires Initial(s)
    ensures Inv(s)
  {
  }

  lemma {:induction false} RunKeeps(s0: State, run: Run)
    requires Initial(s0) && Legal(s0, run)
    ensures Inv(Exec(s0, run))
  {
    match run
    case Boot => InitialInv(s0);
    case Then(pre, step) =>
      RunKeeps(s0, pre);
      StepKeeps(Exec(s0, pre), step);
  }

  /** Whenever wait_lock is free, no process asleep in kwait, or committed to it, has a zombie child. */
  lemma NoLostWakeup(s0: State, run: Run, p: nat, c: nat)
    requires Initial(s0) && Legal(s0, run)
    requires var s := Exec(s0, run);
      s.waitLock.None? && p < |s.procs| && c < |s.procs| && Dozes(s.procs[p]) && s.procs[c].parent == Some(p)
    ensures !Exec(s0, run).procs[c].life.ZOMBIE?
  {
    RunKeeps(s0, run);
    assert ChildOk(Exec(s0, run), p, c);
  }

  /**
   kwait frees only a zombie that is still its own child, off its stack, with the
   pid it returns, and that was never freed before, although it dropped both
   locks after finding it.
   */
  lemma FreedOnceByParent(s0: State, run: Run, p: nat)
    requires Initial(s0) && Legal(s0, Then(run, FreeChild(p)))
    ensures
      var s, t := Exec(s0, run), Exec(s0, Then(run, FreeChild(p)));
      var k := s.procs[p].pc.k;
      && s.procs[k].life.ZOMBIE? && s.procs[k].pc.Gone? && s.procs[k].parent == Some(p)
      && s.procs[k].pid == s.procs[p].pc.pid && s.procs[p].pc.pid !in s.reaped
      && t.procs[k] == NoProc && t.reaped == s.reaped[s.procs[p].pc.pid := p]
  {
    RunKeeps(s0, run);
    var s := Exec(s0, run);
    assert ProcOk(s, p) && TargetOk(s, p);
    assert ProcOk(s, s.procs[p].pc.k);
  }

  lemma ZombieStays(s: State, step: Step, k: nat)
    requires Enabled(s, step) && k < |s.procs| && ProcOk(s, k) && TargetOk(s, step.p) && s.procs[k].life.ZOMBIE?
    ensures
      var t := Do(s, step);
      || (k < |t.procs| && t.procs[k].life.ZOMBIE? && t.procs[k].pid == s.procs[k].pid)
      || (step.FreeChild? && s.procs[step.p].pc.k == k)
  {
    if OfPairs(step) { ZombieStaysPair(s, step, k); } else { ZombieStaysLocal(s, step, k); }
  }

  lemma ZombieStaysPair(s: State, step: Step, k: nat)
    requires Enabled(s, step) && k < |s.procs| && ProcOk(s, k) && TargetOk(s, step.p) && s.procs[k].life.ZOMBIE?
    requires OfPairs(step)
    ensures
      var t := Do(s, step);
      || (k < |t.procs| && t.procs[k].life.ZOMBIE? && t.procs[k].pid == s.procs[k].pid)
      || (step.FreeChild? && s.procs[step.p].pc.k == k)
  {
  }

  lemma ZombieStaysLocal(s: State, step: Step, k: nat)
    requires Enabled(s, step) && k < |s.procs| && ProcOk(s, k) && s.procs[k].life.ZOMBIE? && !OfPairs(step)
    ensures var t := Do(s, step); k < |t.procs| && t.procs[k].life.ZOMBIE? && t.procs[k].pid == s.procs[k].pid
  {
  }

  /** Only FreeChild ends a zombie: it stays in its slot, with its pid, until its parent frees it. */
  lemma ZombiesWaitForParent(s0: State, run: Run, step: Step, k: nat)
    requires Initial(s0) && Legal(s0, Then(run, step))
    requires k < |Exec(s0, run).procs| && Exec(s0, run).procs[k].life.ZOMBIE?
    ensures
      var s, t := Exec(s0, run), Exec(s0, Then(run, step));
      || (k < |t.procs| && t.procs[k].life.ZOMBIE? && t.procs[k].pid == s.procs[k].pid)
      || (step.FreeChild? && s.procs[step.p].pc.k == k)
  {
    RunKeeps(s0, run);
    var s := Exec(s0, run);
    assert ProcOk(s, k) && TargetOk(s, step.p);
    ZombieStays(s, step, k);
  }

  /** Every process that has a parent has a living one: exit leaves no orphan behind. */
  lemma ParentsAreAlive(s0: State, run: Run, c: nat)
    requires Initial(s0) && Legal(s0, run) && c < |Exec(s0, run).procs| && Exec(s0, run).procs[c].parent.Some?
    ensures var s := Exec(s0, run); var q := s.procs[c].parent.value; q < |s.procs| && Alive(s.procs[q])
  {
    RunKeeps(s0, run);
    assert ProcOk(Exec(s0, run), c);
    assert ChildOk(Exec(s0, run), Exec(s0, run).procs[c].parent.value, c);
  }
}
