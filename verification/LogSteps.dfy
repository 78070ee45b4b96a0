/** What each kind of step of the log machine does to the parts of the invariant. */
module LogSteps {
  import opened RedoLog

  lemma {:induction false} SumsUpdate(m: nat, ops: seq<Slot>, i: nat, x: Slot)
    requires i < |ops|
    ensures CountIn(ops[i := x]) == CountIn(ops) - (if ops[i].In? then 1 else 0) + (if x.In? then 1 else 0)
    ensures Slack(m, ops[i := x]) == Slack(m, ops) - SlackOf(m, ops[i]) + SlackOf(m, x)
  {
    if i > 0 {
      SumsUpdate(m, ops[1..], i - 1, x);
      assert ops[i := x][1..] == ops[1..][i - 1 := x];
    } else {
      assert ops[i := x][1..] == ops[1..];
    }
  }

  lemma {:induction false} SlackBound(m: nat, ops: seq<Slot>)
    requires WithinReserve(m, ops)
    ensures 0 <= Slack(m, ops) <= CountIn(ops) * m
  {
    if ops != [] {
      SlackBound(m, ops[1..]);
      var c := CountIn(ops[1..]);
      assert (c + 1) * m == c * m + m;
    }
  }

  lemma {:induction false} SlackMember(m: nat, ops: seq<Slot>, p: nat)
    requires WithinReserve(m, ops) && p < |ops| && ops[p].In?
    ensures SlackOf(m, ops[p]) <= Slack(m, ops) && CountIn(ops) > 0
  {
    SlackBound(m, ops[1..]);
    if p > 0 { SlackMember(m, ops[1..], p - 1); }
  }

  lemma {:induction false} AllOut(m: nat, n: nat)
    ensures CountIn(seq(n, _ => Out)) == 0 && Slack(m, seq(n, _ => Out)) == 0
  {
    if n > 0 {
      AllOut(m, n - 1);
      assert seq(n, _ => Out)[1..] == seq(n - 1, _ => Out);
    }
  }

  /** Outside phase Idle no operation runs, and no changed block is logged. */
  lemma QuietClean(g: Geometry, s: State)
    requires HoldInv(g, s) && OpsInv(g, s.ops, s.lh, s.outstanding, s.nextId)
    ensures s.outstanding == 0 ==> Settled(g, s) && forall p :: 0 <= p < |s.ops| ==> s.ops[p].Out?
  {
    forall p | 0 <= p < |s.ops| && s.ops[p].In?
      ensures s.outstanding > 0
    {
      SlackMember(g.maxOp, s.ops, p);
    }
  }

  // begin_op, log_write and end_op keep the reservations

  lemma BeginOps(g: Geometry, s: State, p: nat)
    requires OpsInv(g, s.ops, s.lh, s.outstanding, s.nextId) && CanBegin(g, s, p)
    ensures OpsInv(g, Begun(s, p).ops, s.lh, s.outstanding + 1, s.nextId + 1)
  {
    SumsUpdate(g.maxOp, s.ops, p, In(s.nextId, {}));
    SlackBound(g.maxOp, s.ops);
    assert (s.outstanding + 1) * g.maxOp == s.outstanding * g.maxOp + g.maxOp;
  }

  lemma LogWriteOps(g: Geometry, s: State, p: nat, b: nat)
    requires OpsInv(g, s.ops, s.lh, s.outstanding, s.nextId) && CanLogWrite(g, s, p, b)
    ensures var t := LogWritten(s, p, b); OpsInv(g, t.ops, t.lh, t.outstanding, t.nextId)
  {
    var logged := s.ops[p].logged;
    SumsUpdate(g.maxOp, s.ops, p, LogWritten(s, p, b).ops[p]);
    if b in logged { assert logged + {b} == logged; } else { assert |logged + {b}| == |logged| + 1; }
  }

  lemma EndOps(g: Geometry, s: State, p: nat)
    requires OpsInv(g, s.ops, s.lh, s.outstanding, s.nextId) && CanEnd(s, p)
    ensures OpsInv(g, s.ops[p := Out], s.lh, s.outstanding - 1, s.nextId)
  {
    SumsUpdate(g.maxOp, s.ops, p, Out);
  }

  // The store: disk, cache, pins and what the phase says about them

  /** The phase speaks of the cache only at the pinned blocks of lh. */
  lemma PhaseFrame(g: Geometry, s: State, t: State)
    requires WfDisk(g, s.disk) && HomeList(g, |s.disk|, s.lh) && PhaseInv(g, s) && !s.phase.Booting?
    requires t.disk == s.disk && t.lh == s.lh && t.pins == s.pins && t.phase == s.phase
    requires s.phase.Recovering? ==> t.holder == map[] && t.dirty == {}
    requires forall b :: b in s.pins && b in s.cache ==> b in t.cache && t.cache[b] == s.cache[b]
    ensures PhaseInv(g, t)
  {
  }

  lemma AcquireStore(g: Geometry, s: State, p: nat, b: nat)
    requires StoreInv(g, s) && Normal(s.phase) && b < |s.disk|
    ensures StoreInv(g, Acquired(s, p, b))
  {
    PhaseFrame(g, s, Acquired(s, p, b));
  }

  lemma ModifyStore(g: Geometry, s: State, b: nat, v: Block)
    requires StoreInv(g, s) && s.phase.Idle? && Home(g, |s.disk|, b)
    ensures StoreInv(g, Modified(s, b, v))
  {
  }

  lemma EvictStore(g: Geometry, s: State, b: nat)
    requires StoreInv(g, s) && CanEvict(s, b)
    ensures StoreInv(g, Evicted(s, b))
  {
    PhaseFrame(g, s, Evicted(s, b));
  }

  lemma ReleaseStore(g: Geometry, s: State, b: nat)
    requires StoreInv(g, s) && HoldInv(g, s) && b in s.holder && (s.phase.Idle? || (Settled(g, s) && Normal(s.phase)))
    ensures StoreInv(g, Released(s, b))
  {
    assert DirtyOk(g, s, b);
    PhaseFrame(g, s, Released(s, b));
  }

  lemma LogWriteStore(g: Geometry, s: State, p: nat, b: nat)
    requires StoreInv(g, s) && s.phase.Idle? && CanLogWrite(g, s, p, b) && b in s.cache
    ensures StoreInv(g, LogWritten(s, p, b))
  {
  }

  lemma CopyCache(g: Geometry, s: State, tail: nat)
    requires StoreInv(g, s) && Settled(g, s) && s.phase == Copying(tail) && TailReady(g, s, tail)
    ensures s.lh[tail] in s.cache && g.start + 1 + tail !in s.pins
    ensures var t := Copied(g, s, tail); CacheInv(t.disk, t.cache, t.pins, t.dirty)
  {
    assert s.lh[tail] in s.pins;
  }

  lemma CopyStore(g: Geometry, s: State, tail: nat)
    requires StoreInv(g, s) && Settled(g, s) && s.phase == Copying(tail) && TailReady(g, s, tail)
    ensures StoreInv(g, Copied(g, s, tail))
  {
    CopyCache(g, s, tail);
    CopyPhase(g, s, tail);
  }

  lemma CopyPhase(g: Geometry, s: State, tail: nat)
    requires WfDisk(g, s.disk) && HomeList(g, |s.disk|, s.lh) && PhaseInv(g, s)
    requires s.phase == Copying(tail) && TailReady(g, s, tail) && s.lh[tail] in s.cache
    ensures WfDisk(g, Copied(g, s, tail).disk) && PhaseInv(g, Copied(g, s, tail))
  {
  }

  lemma WriteHeadDisk(g: Geometry, s: State)
    requires WfDisk(g, s.disk) && HomeList(g, |s.disk|, s.lh) && CanWriteHead(g, s)
    requires Bread(s, g.start) == s.disk[g.start]
    ensures WfDisk(g, HeadWritten(g, s).disk) && Logged(g, HeadWritten(g, s).disk) == s.lh
  {
  }

  lemma WriteHeadStore(g: Geometry, s: State)
    requires StoreInv(g, s) && Settled(g, s) && CanWriteHead(g, s)
    ensures StoreInv(g, HeadWritten(g, s)) && Logged(g, HeadWritten(g, s).disk) == s.lh
  {
    WriteHeadCache(g, s);
    WriteHeadDisk(g, s);
  }

  lemma WriteHeadCache(g: Geometry, s: State)
    requires StoreInv(g, s) && Settled(g, s) && CanWriteHead(g, s)
    ensures
      var t := HeadWritten(g, s);
      CacheInv(t.disk, t.cache, t.pins, t.dirty) && g.start !in s.pins
  {
    assert g.start !in s.pins;
  }

  lemma InstallPins(pins: set<nat>, lh: seq<nat>, tail: nat)
    requires tail < |lh| && Distinct(lh) && Pinned(pins, lh, tail)
    ensures Pinned(pins - {lh[tail]}, lh, tail + 1)
  {
  }

  /** Writing a log block to its home keeps the header, the log and what was installed. */
  lemma InstallDisk(g: Geometry, s: State, tail: nat, t: State)
    requires WfDisk(g, s.disk) && HomeList(g, |s.disk|, s.lh) && InstalledUpTo(g, s, tail) && tail < |s.lh|
    requires t.disk == s.disk[s.lh[tail] := s.disk[g.start + 1 + tail]] && t.lh == s.lh
    ensures WfDisk(g, t.disk) && InstalledUpTo(g, t, tail + 1)
    ensures forall i {:trigger s.lh[i]} :: 0 <= i < |s.lh| ==> t.disk[g.start + 1 + i] == s.disk[g.start + 1 + i]
  {
  }

  lemma InstallReads(g: Geometry, s: State, tail: nat)
    requires StoreInv(g, s) && Settled(g, s) && s.phase == Installing(tail) && TailReady(g, s, tail)
    ensures Bread(s, g.start + 1 + tail) == s.disk[g.start + 1 + tail] == Bread(s, s.lh[tail])
  {
  }

  /** A block with contents v is read, and copied to block h on disk and in the cache. */
  lemma CacheCopied(
      disk: seq<Block>, cache: map<nat, Block>, pins: set<nat>, dirty: set<nat>, l: nat, h: nat, v: Block)
    requires CacheInv(disk, cache, pins, dirty) && l < |disk| && h < |disk| && l != h && disk[l] == v
    ensures CacheInv(disk[h := v], cache[l := v][h := v], pins - {h}, dirty)
  {
  }

  lemma InstallCache(g: Geometry, s: State, tail: nat)
    requires StoreInv(g, s) && Settled(g, s) && s.phase == Installing(tail) && TailReady(g, s, tail)
    ensures Bread(s, g.start + 1 + tail) == s.disk[g.start + 1 + tail] == Bread(s, s.lh[tail])
    ensures var t := InstalledOne(g, s, tail); CacheInv(t.disk, t.cache, t.pins, t.dirty)
  {
    InstallReads(g, s, tail);
    var l, h := g.start + 1 + tail, s.lh[tail];
    CacheCopied(s.disk, s.cache, s.pins, s.dirty, l, h, s.disk[l]);
  }

  lemma InstallStore(g: Geometry, s: State, tail: nat)
    requires StoreInv(g, s) && Settled(g, s) && s.phase == Installing(tail) && TailReady(g, s, tail)
    ensures StoreInv(g, InstalledOne(g, s, tail))
  {
    InstallCache(g, s, tail);
    InstallPins(s.pins, s.lh, tail);
    InstallPhase(g, s, tail);
  }

  lemma InstallPhase(g: Geometry, s: State, tail: nat)
    requires WfDisk(g, s.disk) && HomeList(g, |s.disk|, s.lh) && PhaseInv(g, s)
    requires s.phase == Installing(tail) && TailReady(g, s, tail)
    requires Bread(s, g.start + 1 + tail) == s.disk[g.start + 1 + tail]
    requires Pinned(s.pins - {s.lh[tail]}, s.lh, tail + 1)
    ensures WfDisk(g, InstalledOne(g, s, tail).disk) && PhaseInv(g, InstalledOne(g, s, tail))
  {
    InstallDisk(g, s, tail, InstalledOne(g, s, tail));
  }

  lemma ClearStore(g: Geometry, s: State, ph: Phase)
    requires StoreInv(g, s) && Settled(g, s) && HeadReady(g, s)
    requires (s.phase == Installing(|s.lh|) && ph == Finishing) || (s.phase == Recovering(|s.lh|) && ph == Idle)
    ensures StoreInv(g, HeadCleared(g, s, ph)) && Logged(g, HeadCleared(g, s, ph).disk) == []
  {
  }

  lemma ReadHeadStore(g: Geometry, s: State)
    requires StoreInv(g, s) && Enabled(g, s, ReadHead)
    ensures StoreInv(g, HeadRead(g, s))
  {
  }

  lemma RecoverOneStore(g: Geometry, s: State, tail: nat)
    requires StoreInv(g, s) && Settled(g, s) && s.phase == Recovering(tail) && TailReady(g, s, tail)
    ensures StoreInv(g, RecoveredOne(g, s, tail))
  {
    InstallDisk(g, s, tail, RecoveredOne(g, s, tail));
  }
}
