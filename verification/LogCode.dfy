/**
 The functions of kernel/log.c as methods that change the log's fields in place and
 call the buffer cache as the code does. Every block write is one step of the
 machine in module RedoLog: the ghost field `trace` records them, and a buffer that
 bread recycles on the way is an Evict step. So every state a method passes through,
 and every state a crash can leave behind, is a state of a run of that machine.
 */
module LogCode {
  import opened RedoLog
  import opened LogSteps
  import opened LogInvariant
  import opened LogHistory
  import opened LogBuffers
  import C = BufferCache

  /** The run is one of the machine and ends in s. */
  ghost predicate Reaches(g: Geometry, s0: State, run: Run, s: State) {
    Init(g, s0) && Legal(g, s0, run) && Exec(g, s0, run) == s
  }

  /** No logged block, no block of the log and not its header is locked. */
  predicate LogUnlocked(g: Geometry, s: State) {
    && (forall b :: b in s.lh ==> b !in s.holder)
    && (forall b :: g.start <= b <= g.start + g.logBlocks ==> b !in s.holder)
  }

  /** The copying loops can then always take their next block. */
  lemma {:induction false} TailIsReady(g: Geometry, s0: State, run: Run, s: State, tail: nat)
    requires Reaches(g, s0, run, s) && LogUnlocked(g, s) && tail < |s.lh|
    ensures TailReady(g, s, tail) && Home(g, |s.disk|, s.lh[tail])
  {
    RunKeeps(g, s0, run);
  }

  /** A block that is logged and not yet installed is pinned, so it is never recycled. */
  lemma {:induction false} LoggedStaysCached(g: Geometry, s0: State, run: Run, s: State, i: nat)
    requires Reaches(g, s0, run, s) && i < |s.lh|
    requires Normal(s.phase) && (s.phase.Installing? ==> s.phase.tail <= i)
    ensures s.lh[i] in s.pins && s.lh[i] in s.cache && !CanEvict(s, s.lh[i])
  {
    RunKeeps(g, s0, run);
  }

  /** The header block always reads as a header that has room for LOGBLOCKS entries. */
  lemma {:induction false} HeadIsReady(g: Geometry, s0: State, run: Run, s: State)
    requires Reaches(g, s0, run, s) && !s.phase.Idle? && LogUnlocked(g, s)
    ensures HeadReady(g, s) && Bread(s, g.start).n <= g.logBlocks == |Bread(s, g.start).block|
  {
    RunKeeps(g, s0, run);
    QuietClean(g, s);
    HeadReads(g, s);
  }

  lemma HeadReads(g: Geometry, s: State)
    requires StoreInv(g, s) && Settled(g, s) && g.start !in s.holder
    ensures HeadReady(g, s) && Bread(s, g.start).n <= g.logBlocks == |Bread(s, g.start).block|
  {
    assert g.start !in s.pins && g.start !in s.dirty;
  }

  /** At boot nobody has a buffer. */
  lemma {:induction false} BootIsUnlocked(g: Geometry, s0: State, run: Run, s: State)
    requires Reaches(g, s0, run, s) && !Normal(s.phase)
    ensures LogUnlocked(g, s)
  {
    RunKeeps(g, s0, run);
  }

  lemma {:induction false} IdleUnlessCommitting(g: Geometry, s0: State, run: Run, s: State)
    requires Reaches(g, s0, run, s) && Normal(s.phase)
    ensures s.committing <==> !s.phase.Idle?
  {
    RunKeeps(g, s0, run);
  }

  /** While an operation runs, a block that is not in the log is not pinned. */
  lemma {:induction false} NewIsUnpinned(g: Geometry, s0: State, run: Run, s: State, p: nat, b: nat)
    requires Reaches(g, s0, run, s) && MayLog(g, s, p, b)
    ensures b !in s.lh ==> b !in s.pins
  {
    RunKeeps(g, s0, run);
    CommitRunsAlone(g, s0, run);
  }

  function Times(run: Run, step: Step, k: nat): Run {
    if k == 0 then run else Then(Times(run, step, k - 1), step)
  }

  /** The steps of a run other than the recycling of buffers. */
  function Core(run: Run): Run {
    match run
    case Boot => Boot
    case Then(pre, step) => if step.Evict? then Core(pre) else Then(Core(pre), step)
  }

  /** install_trans at block tail, and its step there. */
  function Installs(recovering: bool, tail: nat): Phase {
    if recovering then Recovering(tail) else Installing(tail)
  }

  function InstallStep(recovering: bool): Step {
    if recovering then RecoverOne else InstallOne
  }

  /** The step that erases the transaction, and the phase after it. */
  function ClearStep(recovering: bool): Step { if recovering then RecoverClear else ClearHead }

  function AfterClear(recovering: bool): Phase { if recovering then Idle else Finishing }

  /** The run after commit() of a transaction of k blocks. */
  function CommitRun(run: Run, k: nat): Run {
    var r := Then(run, StartCommit);
    if k == 0 then r
    else Then(Times(Then(Times(r, CopyToLog, k), WriteHead), InstallOne, k), ClearHead)
  }

  class Log {
    const g: Geometry
    const dev: nat
    const bc: C.Cache
    const block: array<nat>  // log.lh.block
    var n: nat
    var outstanding: int
    var committing: bool

    // the machine's initial and present state, the steps between them, and the
    // blocks whose buffers the log itself has locked
    ghost const s0: State
    ghost var s: State
    ghost var trace: Run
    ghost var busy: set<nat>

    ghost predicate Fields(s: State)
      reads this, block
    {
      && n <= block.Length == g.logBlocks
      && s.lh == block[..n] && s.outstanding == outstanding && s.committing == committing
    }

    /** The trace is a run of the machine that ends in s; only a proof about runs unfolds this. */
    ghost predicate Traced()
      reads this`s, this`trace
    {
      forall r {:trigger Reaches(g, s0, r, s)} :: r == trace ==> Reaches(g, s0, r, s)
    }

    ghost predicate Valid()
      reads this, block, bc, bc.bufs, bc.next, bc.prev
    {
      && dev != 0 && block != bc.next && block != bc.prev && Fields(s)
      && Traced() && bc.Valid() && bc.Single() && Matches(bc.Now(), dev, s, busy)
    }

    /** Buffer i has a block that a process or the log itself has locked, or that is pinned. */
    ghost predicate Taken(i: nat)
      reads this`s, this`busy, bc, bc.bufs
      requires i < bc.bufs.Length
    {
      var k := bc.bufs[i].key;
      if k.dev == dev then k.blockno in s.holder || k.blockno in busy || k.blockno in s.pins
      else bc.bufs[i].locked || k in bc.pins
    }

    ghost predicate AllTaken()
      reads this`s, this`busy, bc, bc.bufs
    {
      forall i: nat :: i < bc.bufs.Length ==> Taken(i)
    }

    /** These are exactly the buffers in use: no reference is ever left behind. */
    lemma TakenIff()
      requires Valid()
      ensures bc.NoneUnused() <==> AllTaken()
    {
      forall i: nat | i < bc.bufs.Length
        ensures bc.bufs[i].refcnt > 0 <==> Taken(i)
      {
        bc.InUseIff(i);
        assert MatchAt(bc.Now(), dev, s, busy, bc.bufs[i].key.blockno);
      }
    }

    /** initlog before recovery, at the start or after a crash. */
    constructor (g: Geometry, dev: nat, bc: C.Cache, ghost s0: State, ghost trace: Run)
      requires dev != 0 && Init(g, s0) && Legal(g, s0, trace) && Exec(g, s0, trace).phase.Booting?
      requires bc.Valid() && bc.Single() && Matches(bc.Now(), dev, Exec(g, s0, trace), {})
      ensures Valid() && busy == {} && s.phase.Booting? && fresh(block)
      ensures this.g == g && this.dev == dev && this.bc == bc && this.s0 == s0 && this.trace == trace
    {
      RunKeeps(g, s0, trace);
      this.g, this.dev, this.bc := g, dev, bc;
      block := new nat[g.logBlocks];
      n, outstanding, committing := 0, 0, false;
      this.s0, s, this.trace, busy := s0, Exec(g, s0, trace), trace, {};
    }

    ghost method Take(step: Step)
      requires Traced() && Enabled(g, s, step)
      modifies this`s, this`trace
      ensures Traced() && s == Do(g, old(s), step) && trace == Then(old(trace), step)
    {
      assert Reaches(g, s0, trace, s);
      s, trace := Do(g, s, step), Then(trace, step);
      assert Reaches(g, s0, trace, s);
    }

    /** bread: -1 where it panics because every buffer is in use. */
    method Fetch(b: nat) returns (r: int)
      requires Valid() && b < |s.disk| && b !in s.holder && b !in busy
      modifies this`s, this`trace, this`busy, bc.bufs, bc`cached, bc`refs, bc`held
      ensures Valid() && SameLog(old(s), s) && Core(trace) == Core(old(trace))
      ensures r == -1 <==> old(AllTaken() && bc.Absent(C.Key(dev, b)))
      ensures r == -1 ==> busy == old(busy) && bc.NoneUnused()
      ensures r != -1 ==> bc.Handle(r, C.Key(dev, b)) && busy == old(busy) + {b} && bc.bufs[r].data == Bread(s, b)
      ensures C.LockedStay(old(bc.bufs[..]), bc.bufs[..], bc.n)
    {
      TakenIff();
      ghost var v := bc.Now();
      assert MatchAt(v, dev, s, busy, b);
      ghost var gone;
      r, gone := bc.Bread(dev, b);
      if r != -1 {
        BreadMatches(v, bc.Now(), dev, s, busy, b, gone);
        if gone.dev == dev && gone.blockno != b {
          Take(Evict(gone.blockno));
        }
        busy := busy + {b};
      }
    }

    /** brelse of a buffer that the log itself has locked. */
    method Put(r: nat, b: nat)
      requires Valid() && b in busy && b in s.cache && bc.Handle(r, C.Key(dev, b))
      modifies this`busy, bc.bufs, bc.next, bc.prev, bc`order, bc`refs, bc`held
      ensures Valid() && busy == old(busy) - {b} && C.LockedStay(old(bc.bufs[..]), bc.bufs[..], r)
    {
      ghost var v := bc.Now();
      bc.Brelse(r);
      DropMatches(v, bc.Now(), dev, s, busy, b);
      busy := busy - {b};
    }

    method FetchTwo(b: nat, c: nat) returns (q: int, r: int)
      requires Valid() && b < |s.disk| && b !in s.holder && c < |s.disk| && c !in s.holder && b != c && busy == {}
      modifies this`s, this`trace, this`busy, bc.bufs, bc`cached, bc`refs, bc`held
      ensures Valid() && SameLog(old(s), s) && Core(trace) == Core(old(trace))
      ensures q == -1 || r == -1 ==> bc.NoneUnused()
      ensures q != -1 && r != -1 ==>
        && q != r && busy == {b, c} && bc.Handle(q, C.Key(dev, b)) && bc.bufs[q].data == Bread(s, b)
        && bc.Handle(r, C.Key(dev, c)) && bc.bufs[r].data == Bread(s, c)
    {
      r := -1;
      q := Fetch(b);
      if q != -1 {
        r := Fetch(c);
        assert MatchAt(bc.Now(), dev, s, busy, b);
        assert C.BufOk(bc.Now(), q);
      }
    }

    method PutTwo(b: nat, q: nat, c: nat, r: nat)
      requires Valid() && busy == {b, c} && b != c && b in s.cache && c in s.cache
      requires bc.Handle(q, C.Key(dev, b)) && bc.Handle(r, C.Key(dev, c))
      modifies this`busy, bc.bufs, bc.next, bc.prev, bc`order, bc`refs, bc`held
      ensures Valid() && busy == {}
    {
      Put(q, b);
      Put(r, c);
    }

    /** A change of a busy buffer and its bwrite; the step is still to be taken. */
    method WriteBuf(r: nat, b: nat, x: Block, ghost t: State)
      requires bc.Valid() && bc.Single() && Matches(bc.Now(), dev, t, busy)
      requires b in busy && b < |t.disk| && bc.Handle(r, C.Key(dev, b))
      modifies bc.bufs, bc`cached, bc`disk
      ensures bc.Valid() && bc.Single() && Matches(bc.Now(), dev, Store(t, b, x), busy) && bc.Handle(r, C.Key(dev, b))
      ensures C.LockedStay(old(bc.bufs[..]), bc.bufs[..], r)
    {
      ghost var v := bc.Now();
      bc.Modify(r, x);
      bc.Bwrite(r);
      StoreMatches(v, bc.Now(), dev, t, busy, b, x);
    }

    // ---------- Operations ----------

    /** One pass through the loop of begin_op: enter, or go to sleep. */
    method BeginOp(p: nat) returns (entered: bool)
      requires Valid() && Normal(s.phase) && p < |s.ops| && s.ops[p].Out?
      modifies this`outstanding, this`s, this`trace
      ensures Valid() && entered == old(BeginGuard(g, s))
      ensures trace == if entered then Then(old(trace), Begin(p)) else old(trace)
      ensures !entered ==> s == old(s)
    {
      IdleUnlessCommitting(g, s0, trace, s);
      assert |s.lh| == n && s.outstanding == outstanding;
      if committing {
        return false;
      } else if n + (outstanding + 1) * g.maxOp > g.logBlocks {
        return false;
      }
      Enter(p);
      return true;
    }

    method Enter(p: nat)
      requires Valid() && CanBegin(g, s, p)
      modifies this`outstanding, this`s, this`trace
      ensures Valid() && trace == Then(old(trace), Begin(p))
    {
      outstanding := outstanding + 1;
      Take(Begin(p));
      SameMatches(bc.Now(), dev, old(s), s, busy);
    }

    /** A process reads and locks a block. */
    method Acquire(p: nat, b: nat) returns (r: int)
      requires Valid() && busy == {} && Normal(s.phase) && p < |s.ops| && b < |s.disk| && b !in s.holder
      modifies this`s, this`trace, this`busy, bc.bufs, bc`cached, bc`refs, bc`held
      ensures Valid() && busy == {} && (r == -1 ==> Core(trace) == Core(old(trace)))
      ensures r == -1 <==> old(AllTaken() && bc.Absent(C.Key(dev, b)))
      ensures r != -1 ==>
        && bc.Handle(r, C.Key(dev, b)) && b in s.cache && bc.bufs[r].data == s.cache[b]
        && b in s.holder && s.holder[b] == p
        && Core(trace) == Then(Core(old(trace)), RedoLog.Acquire(p, b))
    {
      r := Fetch(b);
      if r != -1 {
        assert busy == {b};
        AcquireMatches(bc.Now(), dev, s, b, p);
        busy := {};
        Take(RedoLog.Acquire(p, b));
      }
    }

    /** An operation changes a block that it has locked. */
    method Change(p: nat, b: nat, r: nat, x: Block)
      requires Valid() && busy == {} && Holds(g, s, p, b) && bc.Handle(r, C.Key(dev, b))
      modifies this`s, this`trace, bc.bufs, bc`cached
      ensures Valid() && trace == Then(old(trace), Modify(p, b, x)) && bc.Handle(r, C.Key(dev, b))
    {
      ghost var v := bc.Now();
      bc.Modify(r, x);
      ModifyMatches(v, bc.Now(), dev, s, b, x);
      Take(Modify(p, b, x));
    }

    /** brelse by a process, also of a block that it changed and did not log. */
    method Release(b: nat, r: nat)
      requires Valid() && busy == {} && b in s.holder && bc.Handle(r, C.Key(dev, b))
      modifies this`s, this`trace, bc.bufs, bc.next, bc.prev, bc`order, bc`refs, bc`held
      ensures Valid() && trace == Then(old(trace), RedoLog.Release(b))
    {
      ghost var v := bc.Now();
      bc.Brelse(r);
      ReleaseMatches(v, bc.Now(), dev, s, b);
      Take(RedoLog.Release(b));
    }

    /** The position of b in the log, or the first free one. */
    method Find(b: nat) returns (i: nat)
      requires n <= block.Length
      ensures i <= n && b !in block[..i] && (i < n ==> block[i] == b)
    {
      i := 0;
      while i < n
        invariant i <= n && b !in block[..i]
      {
        if block[i] == b { break; }
        i := i + 1;
      }
    }

    /** log_write: false stands for the two panics. */
    method LogWrite(p: nat, b: nat, r: nat) returns (ok: bool)
      requires Valid() && busy == {} && MayLog(g, s, p, b) && bc.Handle(r, C.Key(dev, b))
      modifies this`n, this`s, this`trace, block, bc.bufs, bc`pins
      ensures Valid() && bc.Handle(r, C.Key(dev, b))
      ensures ok == old(!LogWritePanics(g, s)) == old(n < g.logBlocks)
      ensures trace == if ok then Then(old(trace), RedoLog.LogWrite(p, b)) else old(trace)
      ensures !ok ==> s == old(s) && b in s.lh
    {
      assert Reaches(g, s0, trace, s);
      AppendFindsRoom(g, s0, trace, p, b);
      if n >= g.logBlocks { return false; }
      if outstanding < 1 { return false; }
      var i := Find(b);
      if i == n {
        Append(p, b, r);
      } else {
        block[i] := b;
        Take(RedoLog.LogWrite(p, b));
        SameMatches(bc.Now(), dev, old(s), s, {});
        assert block[..n] == s.lh;
      }
      return true;
    }

    /** A new block in the log is pinned. */
    method Append(p: nat, b: nat, r: nat)
      requires Valid() && busy == {} && CanLogWrite(g, s, p, b) && bc.Handle(r, C.Key(dev, b))
      requires n < g.logBlocks && b !in s.lh
      modifies this`n, this`s, this`trace, block, bc.bufs, bc`pins
      ensures Valid() && bc.Handle(r, C.Key(dev, b)) && trace == Then(old(trace), RedoLog.LogWrite(p, b))
      ensures b in s.pins
    {
      NewIsUnpinned(g, s0, trace, s, p, b);
      ghost var v, t := bc.Now(), s;
      assert MatchAt(v, dev, t, {}, b);
      block[n] := b;
      bc.Bpin(r);
      n := n + 1;
      Take(RedoLog.LogWrite(p, b));
      PinMatches(v, bc.Now(), dev, t, {}, b);
      SameMatches(bc.Now(), dev, t.(pins := t.pins + {b}), s, {});
      assert block[..n] == s.lh;
    }

    // ---------- The committer ----------

    // ok == false stands for bget's panic. The state is then one that a run reaches,
    // like any other state in which the machine may stop.

    method CopyOne(tail: nat) returns (ok: bool)
      requires Valid() && busy == {} && s.phase == Copying(tail) && tail < n && LogUnlocked(g, s)
      modifies this`s, this`trace, this`busy, bc, bc.bufs, bc.next, bc.prev
      ensures Valid() && s.holder == old(s.holder) && s.lh == old(s.lh) && (!ok ==> bc.NoneUnused())
      ensures ok ==> busy == {} && s.phase == Copying(tail + 1) && Core(trace) == Then(Core(old(trace)), CopyToLog)
    {
      TailIsReady(g, s0, trace, s, tail);
      var l, h := g.start + tail + 1, block[tail];
      assert h == s.lh[tail] && h != l;
      var to, from := FetchTwo(l, h);
      if to == -1 || from == -1 { return false; }
      CopyBuf(tail, l, to, h, from);
      PutTwo(h, from, l, to);
      return true;
    }

    method CopyBuf(tail: nat, l: nat, to: nat, h: nat, from: nat)
      requires Valid() && s.phase == Copying(tail) && TailReady(g, s, tail)
      requires l == g.start + tail + 1 && h == s.lh[tail]
      requires busy == {l, h} && bc.Handle(to, C.Key(dev, l)) && to != from
      requires bc.Handle(from, C.Key(dev, h)) && bc.bufs[from].data == Bread(s, h)
      modifies this`s, this`trace, bc.bufs, bc`cached, bc`disk
      ensures Valid() && trace == Then(old(trace), CopyToLog) && s.phase == Copying(tail + 1)
      ensures s.holder == old(s.holder) && s.lh == old(s.lh) && l in s.cache && h in s.cache
      ensures bc.Handle(to, C.Key(dev, l)) && bc.Handle(from, C.Key(dev, h))
    {
      LoggedStaysCached(g, s0, trace, s, tail);
      ghost var t := s;
      var x := bc.bufs[from].data;
      WriteBuf(to, l, x, t);
      Take(CopyToLog);
      assert s == Store(t, l, x).(phase := Copying(tail + 1));
      SameMatches(bc.Now(), dev, Store(t, l, x), s, busy);
    }

    method WriteLog() returns (ok: bool)
      requires Valid() && busy == {} && s.phase == Copying(0) && LogUnlocked(g, s)
      modifies this`s, this`trace, this`busy, bc, bc.bufs, bc.next, bc.prev
      ensures Valid() && s.holder == old(s.holder) && s.lh == old(s.lh) && (!ok ==> bc.NoneUnused())
      ensures ok ==> busy == {} && s.phase == Copying(n) && Core(trace) == Times(Core(old(trace)), CopyToLog, n)
    {
      ghost var was := Core(trace);
      var tail := 0;
      while tail < n
        invariant 0 <= tail <= n && Valid() && busy == {} && s.holder == old(s.holder) && s.lh == old(s.lh)
        invariant s.phase == Copying(tail) && Core(trace) == Times(was, CopyToLog, tail)
      {
        ok := CopyOne(tail);
        if !ok { return; }
        tail := tail + 1;
        assert Core(trace) == Then(Times(was, CopyToLog, tail - 1), CopyToLog);
      }
      return true;
    }

    /** The new contents of the header block: h with n and the first n entries replaced. */
    method FormatHead(h: Block) returns (r: Block)
      requires h.Header? && n <= |h.block| && n <= block.Length
      ensures r == HeadWith(h, block[..n])
    {
      var entries := h.block;
      for i := 0 to n
        invariant |entries| == |h.block|
        invariant entries[..i] == block[..i] && entries[i..] == h.block[i..]
      {
        entries := entries[i := block[i]];
      }
      assert entries == entries[..n] + entries[n..];
      r := Header(n, entries);
    }

    /** write_head after write_log: the commit point. */
    method CommitHead() returns (ok: bool)
      requires Valid() && busy == {} && s.phase == Copying(n) && LogUnlocked(g, s)
      modifies this`s, this`trace, this`busy, bc, bc.bufs, bc.next, bc.prev
      ensures Valid() && s.holder == old(s.holder) && s.lh == old(s.lh) && (!ok ==> bc.NoneUnused())
      ensures ok ==> busy == {} && s.phase == Installing(0) && Core(trace) == Then(Core(old(trace)), WriteHead)
    {
      HeadIsReady(g, s0, trace, s);
      var r := Fetch(g.start);
      if r == -1 { return false; }
      HeadIsReady(g, s0, trace, s);
      var x := FormatHead(bc.bufs[r].data);
      ghost var t := s;
      WriteBuf(r, g.start, x, t);
      Take(WriteHead);
      SameMatches(bc.Now(), dev, Store(t, g.start, x), s, busy);
      Put(r, g.start);
      return true;
    }

    method InstallOneBlock(tail: nat, recovering: bool) returns (ok: bool)
      requires Valid() && busy == {} && tail < n && LogUnlocked(g, s)
      requires s.phase == Installs(recovering, tail)
      modifies this`s, this`trace, this`busy, bc, bc.bufs, bc.next, bc.prev
      ensures Valid() && s.holder == old(s.holder) && s.lh == old(s.lh) && (!ok ==> bc.NoneUnused())
      ensures ok ==>
        && busy == {} && s.phase == Installs(recovering, tail + 1)
        && Core(trace) == Then(Core(old(trace)), InstallStep(recovering))
    {
      TailIsReady(g, s0, trace, s, tail);
      var l, h := g.start + tail + 1, block[tail];
      assert h == s.lh[tail] && h != l;
      var lbuf, dbuf := FetchTwo(l, h);
      if lbuf == -1 || dbuf == -1 { return false; }
      if recovering {
        RecoverBuf(tail, l, lbuf, h, dbuf);
      } else {
        InstallBuf(tail, l, lbuf, h, dbuf);
      }
      PutTwo(l, lbuf, h, dbuf);
      return true;
    }

    method UnpinBuf(r: nat, b: nat, ghost t: State)
      requires bc.Valid() && bc.Single() && Matches(bc.Now(), dev, t, busy)
      requires b in t.pins && bc.Handle(r, C.Key(dev, b))
      modifies bc.bufs, bc`pins
      ensures bc.Valid() && bc.Single() && Matches(bc.Now(), dev, t.(pins := t.pins - {b}), busy)
      ensures bc.Handle(r, C.Key(dev, b))
      ensures C.LockedStay(old(bc.bufs[..]), bc.bufs[..], r)
    {
      ghost var v := bc.Now();
      assert MatchAt(v, dev, t, busy, b);
      bc.Bunpin(r);
      UnpinMatches(v, bc.Now(), dev, t, busy, b);
    }

    method InstallBuf(tail: nat, l: nat, lbuf: nat, h: nat, dbuf: nat)
      requires Valid() && s.phase == Installing(tail) && TailReady(g, s, tail)
      requires l == g.start + tail + 1 && h == s.lh[tail]
      requires busy == {l, h} && bc.Handle(dbuf, C.Key(dev, h)) && lbuf != dbuf
      requires bc.Handle(lbuf, C.Key(dev, l)) && bc.bufs[lbuf].data == Bread(s, l)
      modifies this`s, this`trace, bc.bufs, bc`cached, bc`disk, bc`pins
      ensures Valid() && trace == Then(old(trace), InstallOne) && s.phase == Installing(tail + 1)
      ensures s.holder == old(s.holder) && s.lh == old(s.lh) && l in s.cache && h in s.cache
      ensures bc.Handle(lbuf, C.Key(dev, l)) && bc.Handle(dbuf, C.Key(dev, h))
    {
      LoggedStaysCached(g, s0, trace, s, tail);
      var x := bc.bufs[lbuf].data;
      ghost var t := Loaded(s, l);
      LoadMatches(bc.Now(), dev, s, busy, l);
      WriteBuf(dbuf, h, x, t);
      UnpinBuf(dbuf, h, Store(t, h, x));
      Take(InstallOne);
      SameMatches(bc.Now(), dev, Store(t, h, x).(pins := t.pins - {h}), s, busy);
    }

    method RecoverBuf(tail: nat, l: nat, lbuf: nat, h: nat, dbuf: nat)
      requires Valid() && s.phase == Recovering(tail) && TailReady(g, s, tail)
      requires l == g.start + tail + 1 && h == s.lh[tail]
      requires busy == {l, h} && bc.Handle(dbuf, C.Key(dev, h)) && lbuf != dbuf
      requires bc.Handle(lbuf, C.Key(dev, l)) && bc.bufs[lbuf].data == Bread(s, l)
      modifies this`s, this`trace, bc.bufs, bc`cached, bc`disk
      ensures Valid() && trace == Then(old(trace), RecoverOne) && s.phase == Recovering(tail + 1)
      ensures s.holder == old(s.holder) && s.lh == old(s.lh) && l in s.cache && h in s.cache
      ensures bc.Handle(lbuf, C.Key(dev, l)) && bc.Handle(dbuf, C.Key(dev, h))
    {
      var x := bc.bufs[lbuf].data;
      ghost var t := Loaded(s, l);
      LoadMatches(bc.Now(), dev, s, busy, l);
      WriteBuf(dbuf, h, x, t);
      Take(RecoverOne);
      SameMatches(bc.Now(), dev, Store(t, h, x), s, busy);
    }

    method InstallTrans(recovering: bool) returns (ok: bool)
      requires Valid() && busy == {} && LogUnlocked(g, s)
      requires s.phase == Installs(recovering, 0)
      modifies this`s, this`trace, this`busy, bc, bc.bufs, bc.next, bc.prev
      ensures Valid() && s.holder == old(s.holder) && s.lh == old(s.lh) && (!ok ==> bc.NoneUnused())
      ensures ok ==>
        && busy == {} && s.phase == Installs(recovering, n)
        && Core(trace) == Times(Core(old(trace)), InstallStep(recovering), n)
    {
      ghost var step, was := InstallStep(recovering), Core(trace);
      var tail := 0;
      while tail < n
        invariant 0 <= tail <= n && Valid() && busy == {} && s.holder == old(s.holder) && s.lh == old(s.lh)
        invariant s.phase == Installs(recovering, tail) && Core(trace) == Times(was, step, tail)
      {
        ok := InstallOneBlock(tail, recovering);
        if !ok { return; }
        tail := tail + 1;
        assert Core(trace) == Then(Times(was, step, tail - 1), step);
      }
      return true;
    }

    /** log.lh.n = 0 and write_head: erase the transaction. */
    method ClearHead(recovering: bool) returns (ok: bool)
      requires Valid() && busy == {} && LogUnlocked(g, s)
      requires s.phase == Installs(recovering, n)
      modifies this`n, this`s, this`trace, this`busy, bc, bc.bufs, bc.next, bc.prev
      ensures (ok ==> Valid()) && (!ok ==> Traced() && bc.NoneUnused())
      ensures ok ==>
        && n == 0 && busy == {} && s.phase == AfterClear(recovering)
        && trace.Then? && trace.step == ClearStep(recovering) && Core(trace) == Then(Core(old(trace)), trace.step)
    {
      HeadIsReady(g, s0, trace, s);
      var r := Fetch(g.start);
      if r == -1 { return false; }
      EraseHead(recovering, r);
      Put(r, g.start);
      return true;
    }

    method EraseHead(recovering: bool, r: nat)
      requires Valid() && s.phase == Installs(recovering, n) && LogUnlocked(g, s)
      requires busy == {g.start} && bc.Handle(r, C.Key(dev, g.start))
      requires g.start < |s.disk| && bc.bufs[r].data == Bread(s, g.start)
      modifies this`n, this`s, this`trace, bc.bufs, bc`cached, bc`disk
      ensures Valid() && n == 0 && bc.Handle(r, C.Key(dev, g.start))
      ensures trace == Then(old(trace), ClearStep(recovering))
      ensures s.holder == old(s.holder) && g.start in s.cache && s.phase == AfterClear(recovering)
    {
      HeadIsReady(g, s0, trace, s);
      n := 0;
      var x := FormatHead(bc.bufs[r].data);
      ghost var t := s;
      WriteBuf(r, g.start, x, t);
      Take(ClearStep(recovering));
      SameMatches(bc.Now(), dev, Store(t, g.start, x), s, busy);
    }

    /** commit up to the commit point. */
    method LogTransaction() returns (ok: bool)
      requires Valid() && busy == {} && s.phase == Copying(0) && LogUnlocked(g, s)
      modifies this`s, this`trace, this`busy, bc, bc.bufs, bc.next, bc.prev
      ensures Valid() && s.holder == old(s.holder) && s.lh == old(s.lh) && (!ok ==> bc.NoneUnused())
      ensures ok ==>
        && busy == {} && s.phase == Installing(0)
        && Core(trace) == Then(Times(Core(old(trace)), CopyToLog, n), WriteHead)
    {
      ok := WriteLog();
      if ok {
        ok := CommitHead();
      }
    }

    method Commit() returns (ok: bool)
      requires Valid() && busy == {} && s.phase.Starting? && LogUnlocked(g, s)
      modifies this`n, this`s, this`trace, this`busy, bc, bc.bufs, bc.next, bc.prev
      ensures (ok ==> Valid()) && (!ok ==> Traced() && bc.NoneUnused())
      ensures ok ==>
        && n == 0 && busy == {} && s.phase.Finishing?
        && Core(trace) == CommitRun(Core(old(trace)), old(n))
    {
      Take(StartCommit);
      SameMatches(bc.Now(), dev, old(s), s, busy);
      if n > 0 {
        ok := LogTransaction();
        if !ok { return; }
        ok := InstallTrans(false);
        if !ok { return; }
        ok := ClearHead(false);
        return;
      }
      return true;
    }

    /** The locked part of end_op: leave, and say whether to commit. */
    method LeaveOp(p: nat) returns (doCommit: bool)
      requires Valid() && p < |s.ops| && s.ops[p].In? && forall b :: b in s.holder ==> s.holder[b] != p
      modifies this`outstanding, this`committing, this`s, this`trace
      ensures Valid() && s.holder == old(s.holder) && s.lh == old(s.lh) && outstanding == old(outstanding) - 1
      ensures doCommit == (outstanding == 0) && (doCommit ==> s.phase.Starting?)
      ensures trace == Then(old(trace), End(p))
    {
      assert Reaches(g, s0, trace, s);
      CommitRunsAlone(g, s0, trace);
      doCommit := false;
      outstanding := outstanding - 1;
      assert !committing;  // end_op's panic
      if outstanding == 0 {
        doCommit := true;
        committing := true;
      }
      Take(End(p));
      SameMatches(bc.Now(), dev, old(s), s, busy);
    }

    method FinishCommit()
      requires Valid() && s.phase.Finishing?
      modifies this`committing, this`s, this`trace
      ensures Valid() && s.phase.Idle? && n == old(n) && outstanding == old(outstanding)
      ensures trace == Then(old(trace), RedoLog.FinishCommit)
    {
      committing := false;
      Take(RedoLog.FinishCommit);
      SameMatches(bc.Now(), dev, old(s), s, busy);
    }

    /**
     end_op; the caller that ends the last operation commits. Other processes may have
     blocks locked, here not the ones that the commit then needs.
     */
    method EndOp(p: nat) returns (ok: bool)
      requires Valid() && busy == {} && p < |s.ops| && s.ops[p].In? && forall b :: b in s.holder ==> s.holder[b] != p
      requires outstanding == 1 ==> LogUnlocked(g, s)
      modifies this`n, this`outstanding, this`committing, this`s, this`trace, this`busy, bc, bc.bufs, bc.next, bc.prev
      ensures (ok ==> Valid()) && (!ok ==> Traced() && bc.NoneUnused() && old(outstanding) == 1)
      ensures ok ==>
        Core(trace) == if old(outstanding) == 1
                       then Then(CommitRun(Then(Core(old(trace)), End(p)), old(n)), RedoLog.FinishCommit)
                       else Then(Core(old(trace)), End(p))
      ensures ok && old(outstanding) == 1 ==> s.phase.Idle? && n == 0
    {
      var doCommit := LeaveOp(p);
      if doCommit {
        ok := Commit();
        if !ok { return; }
        FinishCommit();
      }
      return true;
    }

    // ---------- Recovery ----------

    method CopyHead(h: Block)
      requires h.Header? && h.n <= |h.block| && h.n <= block.Length
      modifies this`n, block
      ensures n == h.n && block[..n] == h.block[..n]
    {
      n := h.n;
      for i := 0 to n
        invariant n == h.n <= block.Length && block[..i] == h.block[..i]
      {
        block[i] := h.block[i];
      }
    }

    method ReadHead() returns (ok: bool)
      requires Valid() && busy == {} && s.phase.Booting?
      modifies this`n, this`s, this`trace, this`busy, block, bc, bc.bufs, bc.next, bc.prev
      ensures Valid() && (!ok ==> bc.NoneUnused())
      ensures ok ==>
        busy == {} && s.phase == Recovering(0) && Core(trace) == Then(Core(old(trace)), RedoLog.ReadHead)
    {
      BootIsUnlocked(g, s0, trace, s);
      HeadIsReady(g, s0, trace, s);
      var r := Fetch(g.start);
      if r == -1 { return false; }
      BootIsUnlocked(g, s0, trace, s);
      HeadIsReady(g, s0, trace, s);
      var h := bc.bufs[r].data;
      CopyHead(h);
      LoadMatches(bc.Now(), dev, s, busy, g.start);
      ghost var t := Loaded(s, g.start);
      Take(RedoLog.ReadHead);
      SameMatches(bc.Now(), dev, t, s, busy);
      Put(r, g.start);
      return true;
    }

    /** initlog after a crash: the disk ends up holding the durable contents. */
    method RecoverFromLog() returns (ok: bool)
      requires Valid() && busy == {} && s.phase.Booting?
      modifies this`n, this`s, this`trace, this`busy, block, bc, bc.bufs, bc.next, bc.prev
      ensures (ok ==> Valid()) && (!ok ==> Traced() && bc.NoneUnused())
      ensures ok ==> s.phase.Idle? && n == 0 && busy == {}
      ensures ok ==> Reaches(g, s0, trace, s) && forall b: nat :: Home(g, |s0.disk|, b) ==>
                C.Key(dev, b) in bc.disk &&
                bc.disk[C.Key(dev, b)] == Replay(Durable(g, s0.disk, b), PastOf(g, s0, trace, b).durable, b)
    {
      ok := ReadHead();
      if !ok { return; }
      BootIsUnlocked(g, s0, trace, s);
      ok := InstallTrans(true);
      if !ok { return; }
      BootIsUnlocked(g, s0, trace, s);
      ok := ClearHead(true);
      if !ok { return; }
      assert Reaches(g, s0, trace, s);
      forall b: nat | Home(g, |s0.disk|, b)
        ensures C.Key(dev, b) in bc.disk
        ensures bc.disk[C.Key(dev, b)] == Replay(Durable(g, s0.disk, b), PastOf(g, s0, trace, b).durable, b)
      {
        RecoveredDisk(g, s0, trace.pre, b);
        assert MatchAt(bc.Now(), dev, s, busy, b);
      }
    }
  }
}
