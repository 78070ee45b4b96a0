/**
 The redo log of kernel/log.c as a step machine: a disk with atomic single-block
 writes, a volatile block cache with pins, any number of processes running file
 system operations, the committer, and recovery. A crash may happen between any
 two steps, also inside recovery. The invariant is at the end.
 */
module RedoLog {

  datatype Block = Data(bytes: seq<int>) | Header(n: nat, block: seq<nat>)

  // start: block number of the log header; logBlocks: LOGBLOCKS; maxOp: MAXOPBLOCKS
  datatype Geometry = Geometry(start: nat, logBlocks: nat, maxOp: nat)

  // What a process is doing: nothing, or the file system operation `id`, which
  // has passed the distinct block numbers `logged` to log_write
  datatype Slot = Out | In(id: nat, logged: set<nat>)

  datatype Phase =
    | Idle
    | Starting               // end_op has set committing and calls commit
    | Copying(tail: nat)     // write_log
    | Installing(tail: nat)  // install_trans(0)
    | Finishing              // commit has returned, committing is still set
    | Booting                // initlog, nothing read yet
    | Recovering(tail: nat)  // install_trans(1)

  datatype State = State(
    disk: seq<Block>,
    cache: map<nat, Block>,   // valid buffers
    pins: set<nat>,      // bpin/bunpin references
    lh: seq<nat>,             // log.lh.block[..log.lh.n]
    outstanding: int,
    committing: bool,
    ops: seq<Slot>,           // one slot per process
    holder: map<nat, nat>,    // locked buffer -> process holding its sleep lock
    dirty: set<nat>,          // modified since its last log_write, and not in lh unless still held
    phase: Phase,
    nextId: nat)

  datatype Step =
    | Begin(p: nat)
    | Acquire(p: nat, b: nat)
    | Modify(p: nat, b: nat, v: Block)
    | LogWrite(p: nat, b: nat)
    | Release(b: nat)
    | End(p: nat)
    | StartCommit
    | CopyToLog
    | WriteHead
    | InstallOne
    | ClearHead
    | FinishCommit
    | Evict(b: nat)
    | Crash
    | ReadHead
    | RecoverOne
    | RecoverClear

  // ---------- The disk layout ----------

  predicate Distinct(xs: seq<nat>) {
    forall i, j :: 0 <= i < j < |xs| ==> xs[i] != xs[j]
  }

  /** A block outside the log: the boot and super blocks, inodes, bitmap, data. */
  predicate Home(g: Geometry, size: nat, b: nat) {
    b < size && !(g.start <= b <= g.start + g.logBlocks)
  }

  predicate HomeList(g: Geometry, size: nat, xs: seq<nat>) {
    Distinct(xs) && |xs| <= g.logBlocks && forall i :: 0 <= i < |xs| ==> Home(g, size, xs[i])
  }

  predicate WfDisk(g: Geometry, d: seq<Block>) {
    && g.start + g.logBlocks < |d|
    && d[g.start].Header?
    && d[g.start].n <= g.logBlocks == |d[g.start].block|
    && HomeList(g, |d|, d[g.start].block[..d[g.start].n])
  }

  /** The block numbers of the committed, not yet erased transaction on disk. */
  function Logged(g: Geometry, d: seq<Block>): seq<nat>
    requires WfDisk(g, d)
  {
    d[g.start].block[..d[g.start].n]
  }

  /** What recovery started now would leave at home block b. */
  ghost function Durable(g: Geometry, d: seq<Block>, b: nat): Block
    requires WfDisk(g, d) && b < |d|
  {
    var L := Logged(g, d);
    if b in L then var i :| 0 <= i < |L| && L[i] == b; d[g.start + 1 + i] else d[b]
  }

  // ---------- Transitions ----------

  predicate Normal(ph: Phase) { !ph.Booting? && !ph.Recovering? }

  function Bread(s: State, b: nat): Block
    requires b < |s.disk|
  {
    if b in s.cache then s.cache[b] else s.disk[b]
  }

  /** memmove into a buffer followed by bwrite: one atomic block write. */
  function Store(s: State, b: nat, v: Block): State
    requires b < |s.disk|
  {
    s.(disk := s.disk[b := v], cache := s.cache[b := v])
  }

  /** write_head: n and the first n entries change, stale entries stay. */
  function HeadWith(h: Block, xs: seq<nat>): Block
    requires h.Header? && |xs| <= |h.block|
  {
    Header(|xs|, xs + h.block[|xs|..])
  }

  predicate BeginGuard(g: Geometry, s: State) {
    !s.committing && |s.lh| + (s.outstanding + 1) * g.maxOp <= g.logBlocks
  }

  /** log_write stops the kernel here, whether or not the block would be absorbed. */
  predicate LogWritePanics(g: Geometry, s: State) {
    |s.lh| >= g.logBlocks || s.outstanding < 1
  }

  // Begin and end of an operation, kernel/log.c begin_op and end_op

  predicate CanBegin(g: Geometry, s: State, p: nat) {
    s.phase.Idle? && p < |s.ops| && s.ops[p].Out? && BeginGuard(g, s)
  }

  function Begun(s: State, p: nat): State
    requires p < |s.ops|
  {
    s.(outstanding := s.outstanding + 1, ops := s.ops[p := In(s.nextId, {})], nextId := s.nextId + 1)
  }

  predicate CanEnd(s: State, p: nat) {
    p < |s.ops| && s.ops[p].In? && !s.committing && forall b :: b in s.holder ==> s.holder[b] != p
  }

  function Ended(s: State, p: nat): State
    requires p < |s.ops|
  {
    var t := s.(outstanding := s.outstanding - 1, ops := s.ops[p := Out]);
    if t.outstanding == 0 then t.(committing := true, phase := Starting) else t
  }

  // Buffers: bread, changing the data, log_write, brelse, recycling

  function Acquired(s: State, p: nat, b: nat): State
    requires b < |s.disk|
  {
    s.(cache := s.cache[b := Bread(s, b)], holder := s.holder[b := p])
  }

  predicate Holds(g: Geometry, s: State, p: nat, b: nat) {
    p < |s.ops| && s.ops[p].In? && Home(g, |s.disk|, b) && b in s.holder && s.holder[b] == p
  }

  function Modified(s: State, b: nat, v: Block): State {
    s.(cache := s.cache[b := v], dirty := s.dirty + {b})
  }

  /** Logging b keeps an operation within its reservation of MAXOPBLOCKS distinct blocks. */
  predicate Reserved(g: Geometry, logged: set<nat>, b: nat) {
    b in logged || |logged| < g.maxOp
  }

  /** Operation p may call log_write on block b. */
  predicate MayLog(g: Geometry, s: State, p: nat, b: nat) {
    Holds(g, s, p, b) && Reserved(g, s.ops[p].logged, b)
  }

  predicate CanLogWrite(g: Geometry, s: State, p: nat, b: nat) {
    MayLog(g, s, p, b) && !LogWritePanics(g, s)
  }

  function LogWritten(s: State, p: nat, b: nat): State
    requires p < |s.ops| && s.ops[p].In?
  {
    var t := s.(ops := s.ops[p := s.ops[p].(logged := s.ops[p].logged + {b})], dirty := s.dirty - {b});
    if b in s.lh then t else t.(lh := s.lh + [b], pins := s.pins + {b})
  }

  predicate CanEvict(s: State, b: nat) {
    b in s.cache && b !in s.pins && b !in s.holder
  }

  /** brelse, whether or not log_write was called: writei does not call it when its copy fails. */
  function Released(s: State, b: nat): State {
    s.(holder := s.holder - {b}, dirty := if b in s.lh then s.dirty - {b} else s.dirty)
  }

  /** Recycling a buffer; changes in it that were not logged are gone. */
  function Evicted(s: State, b: nat): State {
    s.(cache := s.cache - {b}, dirty := s.dirty - {b})
  }

  // The committer

  /** The loop bodies of write_log and install_trans find both their blocks unlocked. */
  predicate TailReady(g: Geometry, s: State, tail: nat) {
    && g.start + g.logBlocks < |s.disk| && tail < |s.lh| <= g.logBlocks
    && s.lh[tail] < |s.disk| && s.lh[tail] !in s.holder && g.start + 1 + tail !in s.holder
  }

  function Copied(g: Geometry, s: State, tail: nat): State
    requires TailReady(g, s, tail)
  {
    Store(s, g.start + 1 + tail, Bread(s, s.lh[tail])).(phase := Copying(tail + 1))
  }

  /** Reading a block leaves it in the cache. */
  function Loaded(s: State, b: nat): State
    requires b < |s.disk|
  {
    s.(cache := s.cache[b := Bread(s, b)])
  }

  function InstalledOne(g: Geometry, s: State, tail: nat): State
    requires TailReady(g, s, tail)
  {
    Store(Loaded(s, g.start + 1 + tail), s.lh[tail], Bread(s, g.start + 1 + tail)).(
      pins := s.pins - {s.lh[tail]}, phase := Installing(tail + 1))
  }

  predicate HeadReady(g: Geometry, s: State) {
    g.start < |s.disk| && g.start !in s.holder && Bread(s, g.start).Header?
  }

  predicate CanWriteHead(g: Geometry, s: State) {
    s.phase == Copying(|s.lh|) && HeadReady(g, s) && |s.lh| <= |Bread(s, g.start).block|
  }

  function HeadWritten(g: Geometry, s: State): State
    requires HeadReady(g, s) && |s.lh| <= |Bread(s, g.start).block|
  {
    Store(s, g.start, HeadWith(Bread(s, g.start), s.lh)).(phase := Installing(0))
  }

  function HeadCleared(g: Geometry, s: State, ph: Phase): State
    requires HeadReady(g, s)
  {
    Store(s, g.start, HeadWith(Bread(s, g.start), [])).(lh := [], phase := ph)
  }

  // Crash and recovery

  /** A crash keeps the disk and nothing else. */
  function Booted(s: State): State {
    State(s.disk, map[], {}, [], 0, false, seq(|s.ops|, _ => Out), map[], {}, Booting, s.nextId)
  }

  function HeadRead(g: Geometry, s: State): State
    requires HeadReady(g, s) && Bread(s, g.start).n <= |Bread(s, g.start).block|
  {
    var h := Bread(s, g.start);
    s.(cache := s.cache[g.start := h], lh := h.block[..h.n], phase := Recovering(0))
  }

  function RecoveredOne(g: Geometry, s: State, tail: nat): State
    requires TailReady(g, s, tail)
  {
    Store(Loaded(s, g.start + 1 + tail), s.lh[tail], Bread(s, g.start + 1 + tail)).(phase := Recovering(tail + 1))
  }

  predicate Enabled(g: Geometry, s: State, step: Step) {
    match step
    case Begin(p) => CanBegin(g, s, p)
    case Acquire(p, b) => Normal(s.phase) && p < |s.ops| && b < |s.disk| && b !in s.holder
    case Modify(p, b, v) => Holds(g, s, p, b)
    case LogWrite(p, b) => CanLogWrite(g, s, p, b)
    case Release(b) => b in s.holder
    case End(p) => CanEnd(s, p)
    case StartCommit => s.phase.Starting?
    case CopyToLog => s.phase.Copying? && TailReady(g, s, s.phase.tail)
    case WriteHead => CanWriteHead(g, s)
    case InstallOne => s.phase.Installing? && TailReady(g, s, s.phase.tail)
    case ClearHead => s.phase.Installing? && s.phase.tail == |s.lh| && HeadReady(g, s)
    case FinishCommit => s.phase.Finishing?
    case Evict(b) => CanEvict(s, b)
    case Crash => true
    case ReadHead => s.phase.Booting? && HeadReady(g, s) && Bread(s, g.start).n <= |Bread(s, g.start).block|
    case RecoverOne => s.phase.Recovering? && TailReady(g, s, s.phase.tail)
    case RecoverClear => s.phase.Recovering? && s.phase.tail == |s.lh| && HeadReady(g, s)
  }

  function Do(g: Geometry, s: State, step: Step): State
    requires Enabled(g, s, step)
  {
    match step
    case Begin(p) => Begun(s, p)
    case Acquire(p, b) => Acquired(s, p, b)
    case Modify(p, b, v) => Modified(s, b, v)
    case LogWrite(p, b) => LogWritten(s, p, b)
    case Release(b) => Released(s, b)
    case End(p) => Ended(s, p)
    case StartCommit => s.(phase := if |s.lh| > 0 then Copying(0) else Finishing)
    case CopyToLog => Copied(g, s, s.phase.tail)
    case WriteHead => HeadWritten(g, s)
    case InstallOne => InstalledOne(g, s, s.phase.tail)
    case ClearHead => HeadCleared(g, s, Finishing)
    case FinishCommit => s.(committing := false, phase := Idle)
    case Evict(b) => Evicted(s, b)
    case Crash => Booted(s)
    case ReadHead => HeadRead(g, s)
    case RecoverOne => RecoveredOne(g, s, s.phase.tail)
    case RecoverClear => HeadCleared(g, s, Idle)
  }

  // A run: nothing yet, or a run followed by one more step
  datatype Run = Boot | Then(pre: Run, step: Step)

  predicate Legal(g: Geometry, s: State, run: Run)
    decreases run, 0
  {
    run.Then? ==> Legal(g, s, run.pre) && Enabled(g, Exec(g, s, run.pre), run.step)
  }

  function Exec(g: Geometry, s: State, run: Run): State
    requires Legal(g, s, run)
    decreases run, 1
  {
    match run
    case Boot => s
    case Then(pre, step) => Do(g, Exec(g, s, pre), step)
  }

  // ---------- Invariant ----------

  function CountIn(ops: seq<Slot>): nat {
    if ops == [] then 0 else (if ops[0].In? then 1 else 0) + CountIn(ops[1..])
  }

  function SlackOf(m: nat, x: Slot): int {
    if x.In? then m - |x.logged| else 0
  }

  /** Log space still reserved by the running operations. */
  function Slack(m: nat, ops: seq<Slot>): int {
    if ops == [] then 0 else SlackOf(m, ops[0]) + Slack(m, ops[1..])
  }

  /** A valid buffer that is neither pinned nor being changed equals the disk. */
  ghost predicate CacheInv(disk: seq<Block>, cache: map<nat, Block>, pins: set<nat>, dirty: set<nat>) {
    && (forall b :: b in cache ==> b < |disk|)
    && (forall b :: b in cache && b !in pins && b !in dirty ==> cache[b] == disk[b])
    && (forall b :: b in pins ==> b in cache)
  }

  /** A running operation holds block b. */
  predicate Changing(s: State, b: nat) {
    b in s.holder && s.holder[b] < |s.ops| && s.ops[s.holder[b]].In?
  }

  /** A changed block is still held by its operation, or it was never logged. */
  ghost predicate DirtyOk(g: Geometry, s: State, b: nat) {
    b in s.dirty ==> b in s.cache && Home(g, |s.disk|, b) && (Changing(s, b) || b !in s.lh)
  }

  /** Locked buffers are cached. */
  ghost predicate HoldInv(g: Geometry, s: State) {
    && (forall b :: b in s.holder ==> b in s.cache)
    && (forall b: nat {:trigger DirtyOk(g, s, b)} {:trigger b in s.dirty} :: DirtyOk(g, s, b))
  }

  /** With no operation running, no changed block is logged. */
  ghost predicate Settled(g: Geometry, s: State) {
    forall b :: b in s.dirty ==> Home(g, |s.disk|, b) && b !in s.lh
  }

  predicate WithinReserve(m: nat, ops: seq<Slot>) {
    forall p :: 0 <= p < |ops| && ops[p].In? ==> |ops[p].logged| <= m
  }

  ghost predicate OpsInv(g: Geometry, ops: seq<Slot>, lh: seq<nat>, outstanding: int, nextId: nat) {
    && outstanding == CountIn(ops)
    && |lh| + Slack(g.maxOp, ops) <= g.logBlocks
    && WithinReserve(g.maxOp, ops) && (forall p :: 0 <= p < |ops| && ops[p].In? ==> ops[p].id < nextId)
    && (forall p, b :: 0 <= p < |ops| && ops[p].In? && b in ops[p].logged ==> b in lh)
    && (forall p, q :: 0 <= p < q < |ops| && ops[p].In? && ops[q].In? ==> ops[p].id != ops[q].id)
  }

  predicate Commits(ph: Phase) {
    ph.Starting? || ph.Copying? || ph.Installing? || ph.Finishing?
  }

  ghost predicate LockInv(s: State) {
    (s.committing <==> Commits(s.phase)) && (!s.phase.Idle? ==> s.outstanding == 0)
  }

  /** The blocks lh[from..] are exactly the pinned ones, each once. */
  ghost predicate Pinned(pins: set<nat>, lh: seq<nat>, from: nat)
    requires from <= |lh|
  {
    (forall i :: from <= i < |lh| ==> lh[i] in pins) && (forall b :: b in pins ==> b in lh[from..])
  }

  ghost predicate CopiedUpTo(g: Geometry, s: State, tail: nat)
    requires g.start + g.logBlocks < |s.disk| && |s.lh| <= g.logBlocks
  {
    tail <= |s.lh| &&
    forall i :: 0 <= i < tail ==> s.lh[i] in s.cache && s.disk[g.start + 1 + i] == s.cache[s.lh[i]]
  }

  ghost predicate InstalledUpTo(g: Geometry, s: State, tail: nat)
    requires WfDisk(g, s.disk) && HomeList(g, |s.disk|, s.lh)
  {
    && Logged(g, s.disk) == s.lh && tail <= |s.lh|
    && (forall i :: 0 <= i < tail ==> s.disk[s.lh[i]] == s.disk[g.start + 1 + i])
  }

  ghost predicate PhaseInv(g: Geometry, s: State)
    requires WfDisk(g, s.disk) && HomeList(g, |s.disk|, s.lh)
  {
    match s.phase
    case Idle => Logged(g, s.disk) == [] && Pinned(s.pins, s.lh, 0)
    case Starting => Logged(g, s.disk) == [] && Pinned(s.pins, s.lh, 0)
    case Copying(tail) => Logged(g, s.disk) == [] && Pinned(s.pins, s.lh, 0) && CopiedUpTo(g, s, tail)
    case Installing(tail) =>
      && InstalledUpTo(g, s, tail) && Pinned(s.pins, s.lh, tail)
      && (forall i :: tail <= i < |s.lh| ==> s.lh[i] in s.cache && s.cache[s.lh[i]] == s.disk[g.start + 1 + i])
    case Finishing => Logged(g, s.disk) == [] && s.lh == [] && s.pins == {}
    case Booting => s.lh == [] && s.pins == {} && s.holder == map[] && s.cache == map[] && s.dirty == {}
    case Recovering(tail) => InstalledUpTo(g, s, tail) && s.pins == {} && s.holder == map[] && s.dirty == {}
  }

  ghost predicate StoreInv(g: Geometry, s: State) {
    && WfDisk(g, s.disk) && HomeList(g, |s.disk|, s.lh)
    && CacheInv(s.disk, s.cache, s.pins, s.dirty) && PhaseInv(g, s)
  }

  ghost predicate Inv(g: Geometry, s: State) {
    && StoreInv(g, s) && HoldInv(g, s)
    && OpsInv(g, s.ops, s.lh, s.outstanding, s.nextId) && LockInv(s)
  }

  /** What a reader of home block b sees; during recovery nobody reads. */
  ghost function View(g: Geometry, s: State, b: nat): Block
    requires WfDisk(g, s.disk) && b < |s.disk|
  {
    if Normal(s.phase) then Bread(s, b) else Durable(g, s.disk, b)
  }

  ghost predicate Init(g: Geometry, s: State) {
    && WfDisk(g, s.disk) && s == Booted(s)
  }
}
