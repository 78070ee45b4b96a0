/**
 What kwait knows about children, in every interleaving of the machine in module
 WaitExit: it sleeps only if it has a child, and says that there is none exactly if
 so. And how parents and lives change, step by step.
 */
module WaitChildren {
  import opened WaitExit

  predicate ChildOf(s: State, c: nat, p: nat) { c < |s.procs| && s.procs[c].parent == Some(p) }

  ghost predicate HasChild(s: State, p: nat) { exists c: nat :: ChildOf(s, c, p) }

  ghost predicate ChildBelow(s: State, p: nat, k: nat) { exists c: nat :: c < k && ChildOf(s, c, p) }

  /** kwait is looking at the table, or on its way into sleep or out of it. */
  predicate Waits(pc: Pc) { pc.WaitScan? || pc.SleepLocked? || pc.SleepWindow? || pc.Asleep? }

  /** havekids says whether there is a child among the entries seen, and kwait sleeps only with a child. */
  ghost predicate WaiterOk(s: State, p: nat) {
    p < |s.procs| ==>
      && (s.procs[p].life.SLEEPING? ==> !s.procs[p].chan.NoChan?)
      && match s.procs[p].pc
         case WaitScan(k, kids) => k <= |s.procs| && (kids <==> ChildBelow(s, p, k))
         case SleepLocked => HasChild(s, p)
         case SleepWindow => HasChild(s, p)
         case Asleep => HasChild(s, p)
         case _ => true
  }

  ghost predicate WaitInv(s: State) {
    forall p: nat {:trigger WaiterOk(s, p)} :: WaiterOk(s, p)
  }

  // ---------- Parents ----------

  /**
   A step changes a parent in three ways only: kfork links the child it made, an
   exiting process gives a child to init, and kwait frees a zombie child.
   */
  lemma ParentChanges(s: State, step: Step, c: nat)
    requires Inv(s) && Enabled(s, step) && c < |s.procs|
    ensures
      var t, p := Do(s, step), step.p;
      && |t.procs| == |s.procs|
      && (t.procs[c].parent != s.procs[c].parent ==>
            || (step.LinkChild? && s.procs[p].pc == ForkLink(c) && s.procs[c].parent.None?
                && t.procs[c].parent == Some(p))
            || (step.ReparentOne? && s.procs[c].parent == Some(p) && t.procs[c].parent == Some(s.init))
            || (step.FreeChild? && s.procs[c].parent == Some(p) && t.procs[c].parent.None?))
  {
    assert ProcOk(s, step.p) && TargetOk(s, step.p) && ProcOk(s, c);
  }

  /** The children of a process in kwait stay its children. */
  lemma ChildStays(s: State, step: Step, c: nat, q: nat)
    requires Inv(s) && Enabled(s, step) && q < |s.procs| && Waits(s.procs[q].pc) && ChildOf(s, c, q)
    ensures ChildOf(Do(s, step), c, q)
  {
    ParentChanges(s, step, c);
  }

  /** While kwait looks at the table, nobody becomes its child. */
  lemma NoNewChild(s: State, step: Step, c: nat, q: nat)
    requires Inv(s) && Enabled(s, step) && q < |s.procs| && s.procs[q].pc.WaitScan? && ChildOf(Do(s, step), c, q)
    ensures ChildOf(s, c, q)
  {
    ParentChanges(s, step, c);
    assert ProcOk(s, q) && ProcOk(s, step.p);
  }

  // ---------- kwait ----------

  lemma HasChildStays(s: State, step: Step, q: nat)
    requires Inv(s) && Enabled(s, step) && q < |s.procs| && Waits(s.procs[q].pc) && HasChild(s, q)
    ensures HasChild(Do(s, step), q)
  {
    var c: nat :| ChildOf(s, c, q);
    ChildStays(s, step, c, q);
  }

  lemma BelowStays(s: State, step: Step, q: nat, k: nat)
    requires Inv(s) && Enabled(s, step) && q < |s.procs| && s.procs[q].pc.WaitScan?
    ensures ChildBelow(Do(s, step), q, k) <==> ChildBelow(s, q, k)
  {
    var t := Do(s, step);
    if c: nat :| c < k && ChildOf(s, c, q) { ChildStays(s, step, c, q); }
    if c: nat :| c < k && ChildOf(t, c, q) { NoNewChild(s, step, c, q); }
  }

  /** Looking at one more entry. */
  lemma BelowNext(s: State, q: nat, k: nat)
    ensures ChildBelow(s, q, k + 1) <==> ChildBelow(s, q, k) || ChildOf(s, k, q)
  {
  }

  lemma BelowAll(s: State, q: nat, k: nat)
    requires k >= |s.procs|
    ensures ChildBelow(s, q, k) <==> HasChild(s, q)
  {
    if c: nat :| ChildOf(s, c, q) { assert c < k; }
  }

  /** The entry of the process that takes the step. */
  lemma OwnStep(s: State, step: Step)
    requires Inv(s) && Enabled(s, step) && WaiterOk(s, step.p)
    ensures WaiterOk(Do(s, step), step.p)
  {
    var p := step.p;
    assert ProcOk(s, p) && TargetOk(s, p);
    var pc := s.procs[p].pc;
    if pc.WaitScan? {
      BelowStays(s, step, p, pc.k);
      BelowStays(s, step, p, pc.k + 1);
      BelowNext(s, p, pc.k);
      if pc.k >= |s.procs| { BelowAll(s, p, pc.k); }
    }
    if Waits(pc) && HasChild(s, p) { HasChildStays(s, step, p); }
  }

  /** Another process's step leaves a process where it is, unless it frees or wakes it. */
  lemma OtherEntry(s: State, step: Step, q: nat)
    requires Inv(s) && Enabled(s, step) && q < |s.procs| && q != step.p
    ensures
      var x, y := s.procs[q], Do(s, step).procs[q];
      && |Do(s, step).procs| == |s.procs|
      && (y == NoProc || (y.pc == x.pc && y.chan == x.chan && (y.life.SLEEPING? ==> x.life.SLEEPING?)))
  {
    if OfPairs(step) { OtherPair(s, step, q); }
  }

  lemma OtherPair(s: State, step: Step, q: nat)
    requires Inv(s) && Enabled(s, step) && q < |s.procs| && q != step.p && OfPairs(step)
    ensures
      var x, y := s.procs[q], Do(s, step).procs[q];
      && |Do(s, step).procs| == |s.procs|
      && (y == NoProc || (y.pc == x.pc && y.chan == x.chan && (y.life.SLEEPING? ==> x.life.SLEEPING?)))
  {
    assert TargetOk(s, step.p);
  }

  /** So it leaves a waiting process waiting. */
  lemma OtherStep(s: State, step: Step, q: nat)
    requires Inv(s) && Enabled(s, step) && q < |s.procs| && q != step.p && WaiterOk(s, q)
    ensures WaiterOk(Do(s, step), q)
  {
    OtherEntry(s, step, q);
    var pc := s.procs[q].pc;
    if pc.WaitScan? { BelowStays(s, step, q, pc.k); }
    if Waits(pc) && HasChild(s, q) { HasChildStays(s, step, q); }
  }

  lemma WaitStep(s: State, step: Step)
    requires Inv(s) && WaitInv(s) && Enabled(s, step)
    ensures WaitInv(Do(s, step))
  {
    var t := Do(s, step);
    forall q: nat
      ensures WaiterOk(t, q)
    {
      if q < |s.procs| {
        assert WaiterOk(s, q);
        if q == step.p { OwnStep(s, step); } else { OtherStep(s, step, q); }
      } else {
        ParentChanges(s, step, step.p);
      }
    }
  }

  lemma {:induction false} WaitRun(s0: State, run: Run)
    requires Initial(s0) && Legal(s0, run)
    ensures Inv(Exec(s0, run)) && WaitInv(Exec(s0, run))
  {
    RunKeeps(s0, run);
    match run
    case Boot =>
    case Then(pre, step) =>
      WaitRun(s0, pre);
      WaitStep(Exec(s0, pre), step);
  }

  /** In every reachable state a process that sleeps in kwait, or is about to, has a child. */
  lemma {:induction false} WaitersHaveChildren(s0: State, run: Run, p: nat)
    requires Initial(s0) && Legal(s0, run) && p < |Exec(s0, run).procs|
    requires var x := Exec(s0, run).procs[p]; x.pc.SleepLocked? || Dozes(x)
    ensures HasChild(Exec(s0, run), p)
  {
    WaitRun(s0, run);
    assert WaiterOk(Exec(s0, run), p);
  }

  /** At the end of its scan kwait gives up exactly if it has no child or is killed; else it goes to sleep. */
  lemma {:induction false} ScanEndReturns(s0: State, run: Run, p: nat)
    requires Initial(s0) && Legal(s0, Then(run, ScanEnd(p)))
    ensures
      var s, t := Exec(s0, run), Exec(s0, Then(run, ScanEnd(p)));
      && p < |s.procs| == |t.procs|
      && (if HasChild(s, p) && !s.procs[p].killed then t.procs[p].pc.SleepLocked? else t.procs[p].pc.User?)
  {
    WaitRun(s0, run);
    var s := Exec(s0, run);
    assert WaiterOk(s, p);
    BelowAll(s, p, s.procs[p].pc.k);
  }

  // ---------- Lives ----------

  /** How a process's life changes, and by which step of which process. */
  predicate LifeChange(s: State, step: Step, x: Life, y: Life, c: nat) {
    match (x, y)
    case (UNUSED, USED) => step.Fork? && step.np == c
    case (USED, UNUSED) => step.ForkAbort?
    case (USED, RUNNABLE) => step.RunChild?
    case (RUNNABLE, RUNNING) => step == Dispatch(c)
    case (RUNNING, RUNNABLE) => step == Yield(c)
    case (RUNNING, SLEEPING) => step == SleepCommit(c) || step == SleepOther(c)
    case (SLEEPING, RUNNABLE) => step.WakeOne? || step == WakeOther(c) || step == Kill(c)
    case (RUNNING, ZOMBIE) => step == ExitZombie(c)
    case (ZOMBIE, UNUSED) => step.FreeChild?
    case _ => false
  }

  /** Process c lives on as before, or its life changes in one of these ways. */
  ghost predicate LifeOk(s: State, step: Step, t: State, c: nat) {
    && c < |s.procs| == |t.procs|
    && (t.procs[c].life != s.procs[c].life ==> LifeChange(s, step, s.procs[c].life, t.procs[c].life, c))
  }

  /** The steps that are for a change of the life of c make it. */
  ghost predicate LifeMade(s: State, step: Step, t: State, c: nat)
    requires Enabled(s, step)
  {
    && c < |s.procs| == |t.procs|
    && (step == Dispatch(c) ==> t.procs[c].life.RUNNING?)
    && (step == Yield(c) || step == WakeOther(c) ==> t.procs[c].life.RUNNABLE?)
    && (step == Kill(c) ==> t.procs[c].killed && !t.procs[c].life.SLEEPING?)
    && (step == ExitZombie(c) ==> t.procs[c].life.ZOMBIE?)
    && (step == SleepCommit(c) || step == SleepOther(c) ==> t.procs[c].life.SLEEPING?)
    && (step.Fork? && step.np == c ==> t.procs[c].life.USED?)
    && (step.RunChild? && s.procs[step.p].pc == ForkRun(c) ==> t.procs[c].life.RUNNABLE?)
    && (step.ForkAbort? && s.procs[step.p].pc == ForkLink(c) ==> t.procs[c].life.UNUSED?)
    && (step.FreeChild? && s.procs[step.p].pc.k == c ==> t.procs[c].life.UNUSED?)
  }

  /** Every change of a life is one of these, and the steps that are for a change make it. */
  lemma Lives(s: State, step: Step, c: nat)
    requires Inv(s) && Enabled(s, step) && c < |s.procs|
    ensures LifeOk(s, step, Do(s, step), c) && LifeMade(s, step, Do(s, step), c)
  {
    if OfPairs(step) { PairLives(s, step, c); } else { LocalLives(s, step, c); }
    LivesMade(s, step, c);
  }

  lemma PairLives(s: State, step: Step, c: nat)
    requires Inv(s) && Enabled(s, step) && c < |s.procs| && OfPairs(step)
    ensures LifeOk(s, step, Do(s, step), c)
  {
    assert ProcOk(s, step.p) && TargetOk(s, step.p);
  }

  lemma LocalLives(s: State, step: Step, c: nat)
    requires Inv(s) && Enabled(s, step) && c < |s.procs| && !OfPairs(step)
    ensures LifeOk(s, step, Do(s, step), c)
  {
    assert ProcOk(s, step.p);
  }

  lemma LivesMade(s: State, step: Step, c: nat)
    requires Inv(s) && Enabled(s, step) && c < |s.procs|
    ensures LifeMade(s, step, Do(s, step), c)
  {
    assert ProcOk(s, step.p);
  }
}
