/**
 Every step of the log machine is a step of an atomic store with durable contents
 and a current view.
 */
module LogStore {
  import opened RedoLog
  import opened LogSteps
  import opened LogInvariant

  /**
   The two-level store the log implements, block by block: the durable contents
   change only when a header write makes those of the logged blocks equal to the
   current view; the view changes only by a modification, or by falling back to the
   durable contents, of all blocks at a crash and of one when its buffer is recycled.
   */
  ghost predicate Refines(g: Geometry, s: State, step: Step, t: State, b: nat)
    requires WfDisk(g, s.disk) && WfDisk(g, t.disk) && b < |s.disk| == |t.disk|
  {
    && Durable(g, t.disk, b) == (if step.WriteHead? && b in s.lh then View(g, s, b) else Durable(g, s.disk, b))
    && View(g, t, b) ==
         if step.Modify? && step.b == b then step.v
         else if step.Crash? || (step.Evict? && step.b == b) then Durable(g, s.disk, b)
         else View(g, s, b)
  }

  lemma WriteHeadRefines(g: Geometry, s: State, b: nat)
    requires StoreInv(g, s) && Settled(g, s) && CanWriteHead(g, s) && Home(g, |s.disk|, b)
    ensures WfDisk(g, HeadWritten(g, s).disk) && Refines(g, s, WriteHead, HeadWritten(g, s), b)
  {
  }

  lemma InstallRefines(g: Geometry, s: State, tail: nat, b: nat)
    requires WfDisk(g, s.disk) && HomeList(g, |s.disk|, s.lh) && InstalledUpTo(g, s, tail)
    requires s.phase == Installing(tail) && TailReady(g, s, tail) && Home(g, |s.disk|, b)
    requires Bread(s, g.start + 1 + tail) == s.disk[g.start + 1 + tail] == Bread(s, s.lh[tail])
    ensures WfDisk(g, InstalledOne(g, s, tail).disk) && Refines(g, s, InstallOne, InstalledOne(g, s, tail), b)
  {
  }

  lemma RecoverOneRefines(g: Geometry, s: State, tail: nat, b: nat)
    requires StoreInv(g, s) && Settled(g, s) && s.phase == Recovering(tail) && TailReady(g, s, tail)
    requires Home(g, |s.disk|, b)
    ensures WfDisk(g, RecoveredOne(g, s, tail).disk) && Refines(g, s, RecoverOne, RecoveredOne(g, s, tail), b)
  {
  }

  lemma ClearRefines(g: Geometry, s: State, step: Step, ph: Phase, b: nat)
    requires StoreInv(g, s) && Settled(g, s) && HeadReady(g, s) && (step.ClearHead? || step.RecoverClear?)
    requires (s.phase == Installing(|s.lh|) && ph == Finishing) || (s.phase == Recovering(|s.lh|) && ph == Idle)
    requires Home(g, |s.disk|, b)
    ensures WfDisk(g, HeadCleared(g, s, ph).disk) && Refines(g, s, step, HeadCleared(g, s, ph), b)
  {
    var t := HeadCleared(g, s, ph);
    assert t.disk[b] == s.disk[b] && Logged(g, t.disk) == [] && b !in Logged(g, t.disk);
    assert Logged(g, s.disk) == s.lh;
  }

  lemma CopyRefines(g: Geometry, s: State, tail: nat, b: nat)
    requires StoreInv(g, s) && Settled(g, s) && s.phase == Copying(tail) && TailReady(g, s, tail)
    requires Home(g, |s.disk|, b)
    ensures WfDisk(g, Copied(g, s, tail).disk) && Refines(g, s, CopyToLog, Copied(g, s, tail), b)
  {
  }

  predicate WritesBlock(step: Step) {
    step.CopyToLog? || step.WriteHead? || step.InstallOne? || step.ClearHead? || step.RecoverOne? || step.RecoverClear?
  }

  lemma OperationRefines(g: Geometry, s: State, step: Step, b: nat)
    requires Inv(g, s) && Enabled(g, s, step)
    requires Home(g, |s.disk|, b) && OfOperation(step) && !step.Evict?
    ensures Refines(g, s, step, Do(g, s, step), b)
  {
  }

  lemma EvictRefines(g: Geometry, s: State, c: nat, b: nat)
    requires StoreInv(g, s) && CanEvict(s, c) && Home(g, |s.disk|, b)
    ensures Refines(g, s, Evict(c), Evicted(s, c), b)
  {
  }

  lemma QuietRefines(g: Geometry, s: State, step: Step, b: nat)
    requires StoreInv(g, s) && Enabled(g, s, step) && Home(g, |s.disk|, b)
    requires step.StartCommit? || step.FinishCommit? || step.Crash? || step.ReadHead?
    ensures Refines(g, s, step, Do(g, s, step), b)
  {
  }

  lemma LogRefines(g: Geometry, s: State, step: Step, b: nat)
    requires Inv(g, s) && Enabled(g, s, step) && Home(g, |s.disk|, b)
    requires step.CopyToLog? || step.WriteHead?
    ensures WfDisk(g, Do(g, s, step).disk) && |Do(g, s, step).disk| == |s.disk|
    ensures Refines(g, s, step, Do(g, s, step), b)
  {
    QuietClean(g, s);
    if step.CopyToLog? {
      CopyRefines(g, s, s.phase.tail, b);
    } else {
      WriteHeadRefines(g, s, b);
    }
  }

  lemma InstallStepRefines(g: Geometry, s: State, b: nat)
    requires Inv(g, s) && Enabled(g, s, InstallOne) && Home(g, |s.disk|, b)
    ensures WfDisk(g, Do(g, s, InstallOne).disk) && |Do(g, s, InstallOne).disk| == |s.disk|
    ensures Refines(g, s, InstallOne, Do(g, s, InstallOne), b)
  {
    QuietClean(g, s);
    InstallReads(g, s, s.phase.tail);
    InstallRefines(g, s, s.phase.tail, b);
  }

  lemma RecoveryRefines(g: Geometry, s: State, step: Step, b: nat)
    requires Inv(g, s) && Enabled(g, s, step) && Home(g, |s.disk|, b)
    requires step.ClearHead? || step.RecoverOne? || step.RecoverClear?
    ensures WfDisk(g, Do(g, s, step).disk) && |Do(g, s, step).disk| == |s.disk|
    ensures Refines(g, s, step, Do(g, s, step), b)
  {
    QuietClean(g, s);
    match step
    case ClearHead => ClearRefines(g, s, step, Finishing, b);
    case RecoverOne => RecoverOneRefines(g, s, s.phase.tail, b);
    case RecoverClear => ClearRefines(g, s, step, Idle, b);
  }

  lemma StepRefines(g: Geometry, s: State, step: Step, b: nat)
    requires Inv(g, s) && Enabled(g, s, step) && Home(g, |s.disk|, b)
    ensures WfDisk(g, Do(g, s, step).disk) && |Do(g, s, step).disk| == |s.disk|
    ensures Refines(g, s, step, Do(g, s, step), b)
  {
    if step.CopyToLog? || step.WriteHead? {
      LogRefines(g, s, step, b);
    } else if step.InstallOne? {
      InstallStepRefines(g, s, b);
    } else if WritesBlock(step) {
      RecoveryRefines(g, s, step, b);
    } else if step.Evict? {
      EvictRefines(g, s, step.b, b);
    } else if OfOperation(step) {
      OperationRefines(g, s, step, b);
    } else {
      QuietRefines(g, s, step, b);
    }
  }
}
