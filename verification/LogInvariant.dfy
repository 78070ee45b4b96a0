/** Every step of the log machine, and so every run, keeps the invariant. */
module LogInvariant {
  import opened RedoLog
  import opened LogSteps

  predicate OfOperation(step: Step) {
    step.Begin? || step.Acquire? || step.Modify? || step.LogWrite? || step.Release? || step.End? || step.Evict?
  }

  lemma OperationStore(g: Geometry, s: State, step: Step)
    requires Inv(g, s) && Enabled(g, s, step) && OfOperation(step)
    ensures StoreInv(g, Do(g, s, step))
  {
    QuietClean(g, s);
    match step
    case Begin(p) =>
    case Acquire(p, b) => AcquireStore(g, s, p, b);
    case Modify(p, b, v) => ModifyStore(g, s, b, v);
    case LogWrite(p, b) => LogWriteStore(g, s, p, b);
    case Release(b) => ReleaseStore(g, s, b);
    case End(p) =>
    case Evict(b) => EvictStore(g, s, b);
  }

  lemma CommitStore(g: Geometry, s: State, step: Step)
    requires Inv(g, s) && Enabled(g, s, step)
    requires step.StartCommit? || step.CopyToLog? || step.WriteHead? || step.InstallOne? || step.FinishCommit?
    ensures StoreInv(g, Do(g, s, step))
  {
    QuietClean(g, s);
    match step
    case StartCommit =>
    case CopyToLog => CopyStore(g, s, s.phase.tail);
    case WriteHead => WriteHeadStore(g, s);
    case InstallOne => InstallStore(g, s, s.phase.tail);
    case FinishCommit =>
  }

  lemma RecoveryStore(g: Geometry, s: State, step: Step)
    requires Inv(g, s) && Enabled(g, s, step)
    requires step.ClearHead? || step.Crash? || step.ReadHead? || step.RecoverOne? || step.RecoverClear?
    ensures StoreInv(g, Do(g, s, step))
  {
    QuietClean(g, s);
    match step
    case ClearHead => ClearStore(g, s, Finishing);
    case Crash =>
    case ReadHead => ReadHeadStore(g, s);
    case RecoverOne => RecoverOneStore(g, s, s.phase.tail);
    case RecoverClear => ClearStore(g, s, Idle);
  }

  lemma StoreKeeps(g: Geometry, s: State, step: Step)
    requires Inv(g, s) && Enabled(g, s, step)
    ensures StoreInv(g, Do(g, s, step))
  {
    if OfOperation(step) {
      OperationStore(g, s, step);
    } else if step.ClearHead? || step.Crash? || step.ReadHead? || step.RecoverOne? || step.RecoverClear? {
      RecoveryStore(g, s, step);
    } else {
      CommitStore(g, s, step);
    }
  }

  lemma OperationDirty(g: Geometry, s: State, step: Step, b: nat)
    requires Inv(g, s) && Enabled(g, s, step) && OfOperation(step)
    ensures DirtyOk(g, Do(g, s, step), b)
  {
    assert DirtyOk(g, s, b);
  }

  lemma CommitDirty(g: Geometry, s: State, step: Step, b: nat)
    requires Inv(g, s) && Enabled(g, s, step) && !OfOperation(step)
    ensures DirtyOk(g, Do(g, s, step), b)
  {
    QuietClean(g, s);
    assert DirtyOk(g, s, b);
  }

  lemma HoldKeeps(g: Geometry, s: State, step: Step)
    requires Inv(g, s) && Enabled(g, s, step)
    ensures HoldInv(g, Do(g, s, step))
  {
    forall b: nat
      ensures DirtyOk(g, Do(g, s, step), b)
    {
      if OfOperation(step) {
        OperationDirty(g, s, step, b);
      } else {
        CommitDirty(g, s, step, b);
      }
    }
  }

  lemma OpsKeeps(g: Geometry, s: State, step: Step)
    requires OpsInv(g, s.ops, s.lh, s.outstanding, s.nextId) && Enabled(g, s, step)
    requires step.ReadHead? ==> Bread(s, g.start).n <= g.logBlocks
    requires step.ReadHead? || step.ClearHead? || step.RecoverClear? ==> forall p :: 0 <= p < |s.ops| ==> s.ops[p].Out?
    ensures var t := Do(g, s, step); OpsInv(g, t.ops, t.lh, t.outstanding, t.nextId)
  {
    match step
    case Begin(p) => BeginOps(g, s, p);
    case LogWrite(p, b) => LogWriteOps(g, s, p, b);
    case End(p) => EndOps(g, s, p);
    case Crash => AllOut(g.maxOp, |s.ops|);
    case ReadHead => SlackOut(g.maxOp, s.ops);
    case ClearHead => SlackOut(g.maxOp, s.ops);
    case RecoverClear => SlackOut(g.maxOp, s.ops);
    case _ =>
  }

  lemma {:induction false} SlackOut(m: nat, ops: seq<Slot>)
    requires forall p :: 0 <= p < |ops| ==> ops[p].Out?
    ensures Slack(m, ops) == 0
  {
    if ops != [] { SlackOut(m, ops[1..]); }
  }

  lemma StepKeeps(g: Geometry, s: State, step: Step)
    requires Inv(g, s) && Enabled(g, s, step)
    ensures Inv(g, Do(g, s, step)) && |Do(g, s, step).disk| == |s.disk|
  {
    StoreKeeps(g, s, step);
    HoldKeeps(g, s, step);
    QuietClean(g, s);
    OpsKeeps(g, s, step);
  }

  lemma {:induction false} RunKeeps(g: Geometry, s0: State, run: Run)
    requires Init(g, s0) && Legal(g, s0, run)
    ensures Inv(g, Exec(g, s0, run)) && |Exec(g, s0, run).disk| == |s0.disk|
  {
    match run
    case Boot => AllOut(g.maxOp, |s0.ops|);
    case Then(pre, step) =>
      RunKeeps(g, s0, pre);
      StepKeeps(g, Exec(g, s0, pre), step);
  }
}
