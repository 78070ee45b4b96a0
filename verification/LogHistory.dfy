/**
 What the disk holds over every run of the log machine. Every run, with crashes and
 with buffers released before they were logged, has an exact history for each block.
 When no changed buffer is released unlogged, and only then, these histories are
 those of a store of atomic transactions.
 */
module LogHistory {
  import opened RedoLog
  import opened LogSteps
  import opened LogInvariant
  import opened LogStore

  // One modification of a home block by operation id
  datatype Write = Write(id: nat, b: nat, v: Block)

  // Writes in the order they were made
  datatype Writes = None | Add(rest: Writes, last: Write)

  function WriteOf(s: State, p: nat, b: nat, v: Block): Write {
    Write(if p < |s.ops| && s.ops[p].In? then s.ops[p].id else s.nextId, b, v)
  }

  /** Block b after the writes have been applied, in order, to a disk on which it held v. */
  function Replay(v: Block, ws: Writes, b: nat): Block {
    match ws
    case None => v
    case Add(rest, w) => if w.b == b then w.v else Replay(v, rest, b)
  }

  // ---------- The history of one block, for every run ----------

  // The writes to one block that are durable, and those its readers see
  datatype Past = Past(durable: Writes, seen: Writes)

  function PastStep(s: State, step: Step, b: nat, h: Past): Past {
    match step
    case Modify(p, c, v) => if c == b then h.(seen := Add(h.seen, WriteOf(s, p, b, v))) else h
    case WriteHead => if b in s.lh then h.(durable := h.seen) else h
    case Evict(c) => if c == b then h.(seen := h.durable) else h
    case Crash => h.(seen := h.durable)
    case _ => h
  }

  function PastOf(g: Geometry, s0: State, run: Run, b: nat): Past
    requires Legal(g, s0, run)
  {
    match run
    case Boot => Past(None, None)
    case Then(pre, step) => PastStep(Exec(g, s0, pre), step, b, PastOf(g, s0, pre, b))
  }

  /**
   Crash refinement. After any run, with crashes anywhere, what recovery yields for
   a block is its initial contents changed by exactly the writes that were in its
   buffer at the last finished header write that named it; readers see these and
   the writes made since, until a crash or the recycling of its buffer.
   */
  lemma {:induction false} CrashRefinement(g: Geometry, s0: State, run: Run, b: nat)
    requires Init(g, s0) && Legal(g, s0, run) && Home(g, |s0.disk|, b)
    ensures
      var s, h, v := Exec(g, s0, run), PastOf(g, s0, run, b), Durable(g, s0.disk, b);
      && WfDisk(g, s.disk) && |s.disk| == |s0.disk|
      && Durable(g, s.disk, b) == Replay(v, h.durable, b)
      && View(g, s, b) == Replay(v, h.seen, b)
  {
    match run
    case Boot =>
    case Then(pre, step) =>
      RunKeeps(g, s0, pre);
      CrashRefinement(g, s0, pre, b);
      StepRefines(g, Exec(g, s0, pre), step, b);
  }

  /** The machine may stop after any step: a crash is always possible, and only the disk outlives it. */
  lemma CrashAnywhere(g: Geometry, s0: State, run: Run)
    requires Init(g, s0) && Legal(g, s0, run)
    ensures Legal(g, s0, Then(run, Crash))
    ensures
      var s, t := Exec(g, s0, run), Exec(g, s0, Then(run, Crash));
      && t.disk == s.disk && t.phase.Booting? && t.cache == map[] && t.pins == {} && t.holder == map[] && t.lh == []
      && t.outstanding == 0 && !t.committing && t.dirty == {} && |t.ops| == |s.ops|
      && forall p :: 0 <= p < |t.ops| ==> t.ops[p].Out?
  {
  }

  /** Outside normal operation nothing is seen that is not durable. */
  lemma {:induction false} BootSeesDurable(g: Geometry, s0: State, run: Run, b: nat)
    requires Init(g, s0) && Legal(g, s0, run)
    ensures !Normal(Exec(g, s0, run).phase) ==> PastOf(g, s0, run, b).seen == PastOf(g, s0, run, b).durable
  {
    if run.Then? {
      RunKeeps(g, s0, run.pre);
      BootSeesDurable(g, s0, run.pre, b);
      BootStep(g, Exec(g, s0, run.pre), run.step, b, PastOf(g, s0, run.pre, b));
    }
  }

  lemma BootStep(g: Geometry, s: State, step: Step, b: nat, h: Past)
    requires Inv(g, s) && Enabled(g, s, step) && (!Normal(s.phase) ==> h.seen == h.durable)
    ensures var k := PastStep(s, step, b, h); !Normal(Do(g, s, step).phase) ==> k.seen == k.durable
  {
  }

  /** Recovery that runs to its end leaves the durable contents on the disk itself. */
  lemma {:induction false} RecoveredDisk(g: Geometry, s0: State, pre: Run, b: nat)
    requires Init(g, s0) && Legal(g, s0, Then(pre, RecoverClear)) && Home(g, |s0.disk|, b)
    ensures
      var s, h := Exec(g, s0, Then(pre, RecoverClear)), PastOf(g, s0, Then(pre, RecoverClear), b);
      && s.phase.Idle? && |s.disk| == |s0.disk| && h.seen == h.durable
      && s.disk[b] == Replay(Durable(g, s0.disk, b), h.durable, b)
  {
    CrashRefinement(g, s0, Then(pre, RecoverClear), b);
    RunKeeps(g, s0, Then(pre, RecoverClear));
    BootSeesDurable(g, s0, pre, b);
  }

  /**
   Recycling a buffer changes what readers of its block see exactly when it differs
   from the disk, and then it was changed and released without log_write.
   */
  lemma {:induction false} EvictLosesIff(g: Geometry, s0: State, run: Run, b: nat)
    requires Init(g, s0) && Legal(g, s0, Then(run, Evict(b))) && Home(g, |s0.disk|, b)
    ensures
      var s, t := Exec(g, s0, run), Exec(g, s0, Then(run, Evict(b)));
      && WfDisk(g, s.disk) && WfDisk(g, t.disk) && b < |s.disk| == |t.disk|
      && (View(g, t, b) != View(g, s, b) <==> b in s.dirty && s.cache[b] != s.disk[b])
      && (b in s.dirty ==> b !in s.lh)
  {
    RunKeeps(g, s0, run);
    RunKeeps(g, s0, Then(run, Evict(b)));
    assert DirtyOk(g, Exec(g, s0, run), b);
  }

  // ---------- The atomic store ----------

  // issued: every write of the run; durable: those of committed transactions;
  // seen: those, followed by the writes made since the last commit or crash
  datatype History = History(durable: Writes, seen: Writes, issued: Writes)

  function Record(s: State, step: Step, h: History): History {
    match step
    case Modify(p, b, v) =>
      var w := WriteOf(s, p, b, v);
      History(h.durable, Add(h.seen, w), Add(h.issued, w))
    case WriteHead => h.(durable := h.seen)
    case Crash => h.(seen := h.durable)
    case _ => h
  }

  /** What a store of atomic transactions would hold after the same operations. */
  function HistoryOf(g: Geometry, s0: State, run: Run): History
    requires Legal(g, s0, run)
  {
    match run
    case Boot => History(None, None, None)
    case Then(pre, step) => Record(Exec(g, s0, pre), step, HistoryOf(g, s0, pre))
  }

  /** The writes to block b. */
  function On(ws: Writes, b: nat): Writes {
    match ws
    case None => None
    case Add(rest, w) => if w.b == b then Add(On(rest, b), w) else On(rest, b)
  }

  lemma {:induction false} ReplayOn(v: Block, ws: Writes, b: nat)
    ensures Replay(v, On(ws, b), b) == Replay(v, ws, b)
  {
    if ws.Add? { ReplayOn(v, ws.rest, b); }
  }

  // ---------- Tidy runs ----------

  /** brelse of a buffer that is unchanged since its last log_write, or logged already. */
  predicate TidyStep(s: State, step: Step) { step.Release? ==> step.b !in s.dirty || step.b in s.lh }

  predicate Tidy(g: Geometry, s0: State, run: Run)
    requires Legal(g, s0, run)
  {
    run.Then? ==> Tidy(g, s0, run.pre) && TidyStep(Exec(g, s0, run.pre), run.step)
  }

  /** Only running operations have changed buffers. */
  ghost predicate Clean(s: State) { forall b :: b in s.dirty ==> Changing(s, b) }

  lemma CleanStep(g: Geometry, s: State, step: Step)
    requires Inv(g, s) && Enabled(g, s, step) && Clean(s) && TidyStep(s, step)
    ensures Clean(Do(g, s, step))
  {
  }

  /** A write to block b is seen but not durable. */
  predicate Touches(durable: Writes, seen: Writes, b: nat) {
    seen != durable && seen.Add? && (seen.last.b == b || Touches(durable, seen.rest, b))
  }

  // Writes not yet durable are protected by the in-memory log header or still being made

  ghost predicate PendingIn(durable: Writes, seen: Writes, lh: seq<nat>, dirty: set<nat>) {
    seen == durable ||
    (seen.Add? && (seen.last.b in lh || seen.last.b in dirty) && PendingIn(durable, seen.rest, lh, dirty))
  }

  lemma {:induction false} PendingGrows(
    d: Writes, w: Writes, lh: seq<nat>, dirty: set<nat>, lh': seq<nat>, dirty': set<nat>)
    requires PendingIn(d, w, lh, dirty)
    requires forall b :: b in lh || b in dirty ==> b in lh' || b in dirty'
    ensures PendingIn(d, w, lh', dirty')
  {
    if w != d { PendingGrows(d, w.rest, lh, dirty, lh', dirty'); }
  }

  ghost predicate PendingInv(s: State, h: History) {
    && PendingIn(h.durable, h.seen, s.lh, s.dirty) && Clean(s) && Extends(h.durable, h.seen)
    && (forall b :: b in s.dirty ==> Touches(h.durable, h.seen, b))
    && (s.phase.Idle? || s.phase.Starting? || s.phase.Copying? || h.seen == h.durable)
  }

  lemma PendingStep(g: Geometry, s: State, step: Step, h: History)
    requires Inv(g, s) && Enabled(g, s, step) && PendingInv(s, h) && TidyStep(s, step)
    ensures PendingInv(Do(g, s, step), Record(s, step, h))
  {
    QuietClean(g, s);
    CleanStep(g, s, step);
    var t := Do(g, s, step);
    if step.LogWrite? || step.Modify? || step.Release? || step.Evict? {
      PendingGrows(h.durable, h.seen, s.lh, s.dirty, t.lh, t.dirty);
    }
    if step.Modify? {
      forall b | b in t.dirty
        ensures Touches(h.durable, Record(s, step, h).seen, b)
      {
        TouchesAdd(h.durable, h.seen, WriteOf(s, step.p, step.b, step.v), b);
      }
    }
  }

  lemma TouchesAdd(d: Writes, w: Writes, x: Write, b: nat)
    requires Extends(d, w) && (x.b == b || Touches(d, w, b))
    ensures Touches(d, Add(w, x), b)
  {
    SizeGrows(d, w);
  }

  function Size(ws: Writes): nat { if ws.None? then 0 else Size(ws.rest) + 1 }

  predicate Extends(d: Writes, w: Writes) { w == d || (w.Add? && Extends(d, w.rest)) }

  lemma {:induction false} SizeGrows(d: Writes, w: Writes)
    requires Extends(d, w)
    ensures Size(w) >= Size(d)
  {
    if w != d { SizeGrows(d, w.rest); }
  }

  /**
   In a tidy run every write that is not durable yet is to a block in the in-memory
   header or still held by its operation.
   */
  lemma {:induction false} PendingIsLogged(g: Geometry, s0: State, run: Run)
    requires Init(g, s0) && Legal(g, s0, run) && Tidy(g, s0, run)
    ensures PendingInv(Exec(g, s0, run), HistoryOf(g, s0, run))
  {
    match run
    case Boot =>
    case Then(pre, step) =>
      RunKeeps(g, s0, pre);
      PendingIsLogged(g, s0, pre);
      PendingStep(g, Exec(g, s0, pre), step, HistoryOf(g, s0, pre));
  }

  /** When the commit of a tidy run has returned, nothing an ended operation wrote is left behind. */
  lemma {:induction false} CommitIsComplete(g: Geometry, s0: State, run: Run)
    requires Init(g, s0) && Legal(g, s0, run) && Tidy(g, s0, run)
    ensures
      var s, h := Exec(g, s0, run), HistoryOf(g, s0, run);
      s.phase.Installing? || s.phase.Finishing? || (s.phase.Idle? && s.lh == [] && s.outstanding == 0)
      ==> h.seen == h.durable
  {
    RunKeeps(g, s0, run);
    PendingIsLogged(g, s0, run);
    QuietClean(g, Exec(g, s0, run));
  }

  // ---------- Tidy runs are runs of the atomic store, and only those ----------

  /** Block b has the history that the atomic store would give it. */
  ghost predicate Agrees(g: Geometry, s0: State, run: Run, b: nat)
    requires Legal(g, s0, run)
  {
    var h := HistoryOf(g, s0, run);
    PastOf(g, s0, run, b) == Past(On(h.durable, b), On(h.seen, b))
  }

  /** Blocks that are neither logged nor held have no pending writes. */
  lemma {:induction false} NothingPending(d: Writes, w: Writes, lh: seq<nat>, dirty: set<nat>, b: nat)
    requires PendingIn(d, w, lh, dirty) && b !in lh && b !in dirty
    ensures On(w, b) == On(d, b)
  {
    if w != d { NothingPending(d, w.rest, lh, dirty, b); }
  }

  lemma {:induction false} TidyAgrees(g: Geometry, s0: State, run: Run, b: nat)
    requires Init(g, s0) && Legal(g, s0, run) && Tidy(g, s0, run)
    ensures Agrees(g, s0, run, b)
  {
    if run.Then? {
      TidyAgrees(g, s0, run.pre, b);
      RunKeeps(g, s0, run.pre);
      PendingIsLogged(g, s0, run.pre);
      AgreesStep(g, Exec(g, s0, run.pre), run.step, HistoryOf(g, s0, run.pre), b);
    }
  }

  lemma AgreesStep(g: Geometry, s: State, step: Step, h: History, b: nat)
    requires Inv(g, s) && Enabled(g, s, step) && PendingInv(s, h)
    ensures
      var k := Record(s, step, h);
      PastStep(s, step, b, Past(On(h.durable, b), On(h.seen, b))) == Past(On(k.durable, b), On(k.seen, b))
  {
    QuietClean(g, s);
    if b !in s.lh && b !in s.dirty { NothingPending(h.durable, h.seen, s.lh, s.dirty, b); }
  }

  /**
   Atomic refinement. After a tidy run the durable contents are the initial ones
   changed by exactly the writes of the transactions whose header write finished,
   and readers see these and all later writes.
   */
  lemma AtomicRefinement(g: Geometry, s0: State, run: Run, b: nat)
    requires Init(g, s0) && Legal(g, s0, run) && Tidy(g, s0, run) && Home(g, |s0.disk|, b)
    ensures
      var s, h, v := Exec(g, s0, run), HistoryOf(g, s0, run), Durable(g, s0.disk, b);
      && WfDisk(g, s.disk) && |s.disk| == |s0.disk|
      && Durable(g, s.disk, b) == Replay(v, h.durable, b)
      && View(g, s, b) == Replay(v, h.seen, b)
  {
    var h, v := HistoryOf(g, s0, run), Durable(g, s0.disk, b);
    CrashRefinement(g, s0, run, b);
    TidyAgrees(g, s0, run, b);
    ReplayOn(v, h.durable, b);
    ReplayOn(v, h.seen, b);
  }

  /** The run, its prefixes, and each of these with one buffer recycled, agree with the atomic store. */
  ghost predicate Robust(g: Geometry, s0: State, run: Run)
    requires Legal(g, s0, run)
  {
    && (forall b: nat :: Agrees(g, s0, run, b))
    && (forall b: nat {:trigger Evict(b)} ::
          Legal(g, s0, Then(run, Evict(b))) ==> Agrees(g, s0, Then(run, Evict(b)), b))
    && (run.Then? ==> Robust(g, s0, run.pre))
  }

  lemma {:induction false} TouchedDiffers(d: Writes, w: Writes, b: nat)
    requires Touches(d, w, b) && Extends(d, w)
    ensures Size(On(w, b)) > Size(On(d, b))
  {
    if w.last.b == b { OnGrows(d, w.rest, b); } else { TouchedDiffers(d, w.rest, b); }
  }

  lemma {:induction false} OnGrows(d: Writes, w: Writes, b: nat)
    requires Extends(d, w)
    ensures Size(On(w, b)) >= Size(On(d, b))
  {
    if w != d { OnGrows(d, w.rest, b); }
  }

  /** After an untidy release, recycling the buffer parts the run from the atomic store. */
  lemma UntidyParts(g: Geometry, s0: State, pre: Run, b: nat)
    requires Init(g, s0) && Legal(g, s0, Then(pre, Release(b))) && Tidy(g, s0, pre)
    requires b in Exec(g, s0, pre).dirty && b !in Exec(g, s0, pre).lh
    ensures Legal(g, s0, Then(Then(pre, Release(b)), Evict(b)))
    ensures !Agrees(g, s0, Then(Then(pre, Release(b)), Evict(b)), b)
  {
    RunKeeps(g, s0, pre);
    PendingIsLogged(g, s0, pre);
    var s, h := Exec(g, s0, pre), HistoryOf(g, s0, pre);
    StrayEvicts(g, s, b);
    TouchedDiffers(h.durable, h.seen, b);
    var run := Then(pre, Release(b));
    assert HistoryOf(g, s0, run) == h && Exec(g, s0, run) == Released(s, b);
    assert PastOf(g, s0, run, b) == PastOf(g, s0, pre, b);
    assert HistoryOf(g, s0, Then(run, Evict(b))) == h;
  }

  /** A buffer that was changed and is released unlogged may be recycled at once. */
  lemma StrayEvicts(g: Geometry, s: State, b: nat)
    requires Inv(g, s) && b in s.holder && b in s.dirty && b !in s.lh
    ensures CanEvict(Released(s, b), b)
  {
    assert DirtyOk(g, s, b);
  }

  /** The log gives the atomic store exactly in the tidy runs. */
  lemma {:induction false} TidyIff(g: Geometry, s0: State, run: Run)
    requires Init(g, s0) && Legal(g, s0, run)
    ensures Robust(g, s0, run) <==> Tidy(g, s0, run)
  {
    if run.Then? { TidyIff(g, s0, run.pre); }
    if Tidy(g, s0, run) {
      forall b: nat
        ensures Agrees(g, s0, run, b)
        ensures Legal(g, s0, Then(run, Evict(b))) ==> Agrees(g, s0, Then(run, Evict(b)), b)
      {
        TidyAgrees(g, s0, run, b);
        if Legal(g, s0, Then(run, Evict(b))) { TidyAgrees(g, s0, Then(run, Evict(b)), b); }
      }
    }
    if run.Then? && Tidy(g, s0, run.pre) && !TidyStep(Exec(g, s0, run.pre), run.step) {
      UntidyParts(g, s0, run.pre, run.step.b);
      var e := Evict(run.step.b);
      assert Legal(g, s0, Then(run, e)) && !Agrees(g, s0, Then(run, e), run.step.b);
    }
  }

  // Operations are atomic

  function Of(ws: Writes, id: nat): Writes {
    match ws
    case None => None
    case Add(rest, w) => if w.id == id then Add(Of(rest, id), w) else Of(rest, id)
  }

  predicate Active(s: State, id: nat) {
    exists p :: 0 <= p < |s.ops| && s.ops[p].In? && s.ops[p].id == id
  }

  predicate Whole(h: History, id: nat) {
    Of(h.durable, id) == None || Of(h.durable, id) == Of(h.issued, id)
  }

  ghost predicate OpHistory(s: State, h: History, id: nat) {
    && (|| (Of(h.durable, id) == None && Of(h.seen, id) == Of(h.issued, id))
        || (Of(h.seen, id) == Of(h.durable, id) && !Active(s, id) && Whole(h, id)))
    && (id >= s.nextId ==> Of(h.issued, id) == None)
  }

  /** Only begin_op makes an operation active, and its number is new. */
  lemma ActiveStep(g: Geometry, s: State, step: Step, id: nat)
    requires Enabled(g, s, step)
    ensures Active(Do(g, s, step), id) ==> Active(s, id) || (step.Begin? && id == s.nextId)
    ensures Do(g, s, step).nextId >= s.nextId
  {
  }

  lemma OpHistoryStep(g: Geometry, s: State, step: Step, h: History, id: nat)
    requires Enabled(g, s, step) && OpHistory(s, h, id)
    requires !s.phase.Idle? ==> forall p :: 0 <= p < |s.ops| ==> s.ops[p].Out?
    requires step.Modify? ==> s.ops[step.p].id < s.nextId
    ensures OpHistory(Do(g, s, step), Record(s, step, h), id)
  {
    ActiveStep(g, s, step, id);
    if step.Modify? { assert Active(s, s.ops[step.p].id); }
  }

  lemma {:induction false} HistoryAtomic(g: Geometry, s0: State, run: Run, id: nat)
    requires Init(g, s0) && Legal(g, s0, run)
    ensures OpHistory(Exec(g, s0, run), HistoryOf(g, s0, run), id)
  {
    match run
    case Boot =>
    case Then(pre, step) =>
      RunKeeps(g, s0, pre);
      HistoryAtomic(g, s0, pre, id);
      QuietClean(g, Exec(g, s0, pre));
      OpHistoryStep(g, Exec(g, s0, pre), step, HistoryOf(g, s0, pre), id);
  }

  lemma {:induction false} OfOn(ws: Writes, id: nat, b: nat)
    ensures Of(On(ws, b), id) == On(Of(ws, id), b)
  {
    if ws.Add? { OfOn(ws.rest, id, b); }
  }

  /** No write of the operation to block b is durable, or all are. */
  predicate NoneDurable(g: Geometry, s0: State, run: Run, id: nat, b: nat)
    requires Legal(g, s0, run)
  {
    Of(PastOf(g, s0, run, b).durable, id) == None
  }

  predicate AllDurable(g: Geometry, s0: State, run: Run, id: nat, b: nat)
    requires Legal(g, s0, run)
  {
    Of(PastOf(g, s0, run, b).durable, id) == Of(On(HistoryOf(g, s0, run).issued, b), id)
  }

  /** In a tidy run every operation's writes are durable in all blocks together, or in none. */
  lemma {:induction false} OperationsAreAtomic(g: Geometry, s0: State, run: Run, id: nat)
    requires Init(g, s0) && Legal(g, s0, run) && Tidy(g, s0, run)
    ensures (forall b: nat :: NoneDurable(g, s0, run, id, b)) || (forall b: nat :: AllDurable(g, s0, run, id, b))
  {
    HistoryAtomic(g, s0, run, id);
    var h := HistoryOf(g, s0, run);
    forall b: nat
      ensures Of(PastOf(g, s0, run, b).durable, id) == On(Of(h.durable, id), b)
      ensures Of(On(h.issued, b), id) == On(Of(h.issued, id), b)
    {
      TidyAgrees(g, s0, run, b);
      OfOn(h.durable, id, b);
      OfOn(h.issued, id, b);
    }
  }

  /**
   begin_op/end_op protocol: a commit runs alone, the logged block numbers are
   distinct and fit the log, and end_op never finds a commit in progress.
   */
  lemma {:induction false} CommitRunsAlone(g: Geometry, s0: State, run: Run)
    requires Init(g, s0) && Legal(g, s0, run)
    ensures
      var s := Exec(g, s0, run);
      && (s.committing ==> s.outstanding == 0)
      && Distinct(s.lh) && |s.lh| <= g.logBlocks
      && forall p :: 0 <= p < |s.ops| && s.ops[p].In? ==> !s.committing && s.outstanding > 0
  {
    RunKeeps(g, s0, run);
    var s := Exec(g, s0, run);
    forall p | 0 <= p < |s.ops| && s.ops[p].In?
      ensures !s.committing && s.outstanding > 0
    {
      SlackMember(g.maxOp, s.ops, p);
    }
  }

  /**
   An operation within its reservation of MAXOPBLOCKS distinct blocks stops the
   kernel in log_write exactly when the log is full, and then only for a block
   that is logged already: a log_write that appends always finds room.
   */
  lemma {:induction false} AppendFindsRoom(g: Geometry, s0: State, run: Run, p: nat, b: nat)
    requires Init(g, s0) && Legal(g, s0, run)
    requires MayLog(g, Exec(g, s0, run), p, b)
    ensures
      var s := Exec(g, s0, run);
      && (LogWritePanics(g, s) <==> |s.lh| == g.logBlocks)
      && (LogWritePanics(g, s) ==> b in s.lh)
  {
    RunKeeps(g, s0, run);
    var s := Exec(g, s0, run);
    SlackMember(g.maxOp, s.ops, p);
  }
}
