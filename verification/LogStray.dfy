/**
 Runs of the log machine in which a buffer is released changed and unlogged, as by
 writei after a failed copy: one in which readers lose the write, and one in which
 an operation is made durable in part.
 */
module LogStray {
  import opened RedoLog
  import opened LogHistory

  // A log of one block, and three home blocks: 2, 3 and 4
  const G := Geometry(0, 1, 1)
  const Head := Header(0, [0])
  const Disk := [Head, Data([]), Data([]), Data([]), Data([])]
  const S0 := State(Disk, map[], {}, [], 0, false, [Out], map[], {}, Booting, 0)
  const One := Data([1])

  /** The state of a run so far: operation 0 runs, with these buffers, logged blocks, locks and changes. */
  function In0(
    cache: map<nat, Block>, pins: set<nat>, lh: seq<nat>, logged: set<nat>, holder: map<nat, nat>,
    dirty: set<nat>): State
  {
    State(Disk, cache, pins, lh, 1, false, [In(0, logged)], holder, dirty, Idle, 1)
  }

  /** One more step. */
  lemma Next(run: Run, step: Step, t: State)
    requires Legal(G, S0, run) && Enabled(G, Exec(G, S0, run), step) && Do(G, Exec(G, S0, run), step) == t
    ensures Legal(G, S0, Then(run, step)) && Exec(G, S0, Then(run, step)) == t
    ensures Quiet(step) ==> HistoryOf(G, S0, Then(run, step)) == HistoryOf(G, S0, run)
    ensures Quiet(step) ==> forall b: nat :: PastOf(G, S0, Then(run, step), b) == PastOf(G, S0, run, b)
  {
  }

  predicate Quiet(step: Step) { !step.Modify? && !step.WriteHead? && !step.Evict? && !step.Crash? }

  /** Recovery, with nothing to recover. */
  lemma Recover() returns (run: Run)
    ensures Init(G, S0) && Legal(G, S0, run) && Exec(G, S0, run) == S0.(cache := map[0 := Head], phase := Idle)
    ensures HistoryOf(G, S0, run) == History(None, None, None)
    ensures PastOf(G, S0, run, 2) == PastOf(G, S0, run, 3) == Past(None, None)
  {
    assert S0.ops == seq(1, _ => Out);
    var s1 := S0.(cache := map[0 := Head], phase := Recovering(0));
    assert Head.block[..0] == [] && HeadWith(Head, []) == Head && Disk[0 := Head] == Disk;
    Next(Boot, ReadHead, s1);
    var r1 := Then(Boot, ReadHead);
    Next(r1, RecoverClear, s1.(phase := Idle));
    run := Then(r1, RecoverClear);
  }

  lemma Start() returns (run: Run)
    ensures Init(G, S0) && Legal(G, S0, run) && Exec(G, S0, run) == In0(map[0 := Head], {}, [], {}, map[], {})
    ensures HistoryOf(G, S0, run) == History(None, None, None)
    ensures PastOf(G, S0, run, 2) == PastOf(G, S0, run, 3) == Past(None, None)
  {
    var r := Recover();
    Next(r, Begin(0), In0(map[0 := Head], {}, [], {}, map[], {}));
    run := Then(r, Begin(0));
  }

  /** Take, change, release, recycle: the write is gone though no crash happened. */
  lemma StrayWriteIsLost()
    ensures Init(G, S0)
    ensures exists run ::
      && Legal(G, S0, run) && Exec(G, S0, run).disk == Disk && View(G, Exec(G, S0, run), 3) == Data([])
      && Replay(Data([]), HistoryOf(G, S0, run).seen, 3) == One
  {
    var r0 := Start();
    Next(r0, Acquire(0, 3), In0(map[0 := Head, 3 := Data([])], {}, [], {}, map[3 := 0], {}));
    var r1 := Then(r0, Acquire(0, 3));
    Next(r1, Modify(0, 3, One), In0(map[0 := Head, 3 := One], {}, [], {}, map[3 := 0], {3}));
    var r2 := Then(r1, Modify(0, 3, One));
    Next(r2, Release(3), In0(map[0 := Head, 3 := One], {}, [], {}, map[], {3}));
    var r3 := Then(r2, Release(3));
    Next(r3, Evict(3), In0(map[0 := Head], {}, [], {}, map[], {}));
    assert HistoryOf(G, S0, r2).seen == Add(None, Write(0, 3, One));
  }

  /** Operation 0 has logged its change of block 2. */
  lemma LogTwo() returns (run: Run)
    ensures Init(G, S0) && Legal(G, S0, run)
    ensures Exec(G, S0, run) == In0(map[0 := Head, 2 := One], {2}, [2], {2}, map[], {})
    ensures HistoryOf(G, S0, run).issued == Add(None, Write(0, 2, One))
    ensures PastOf(G, S0, run, 2).seen == Add(None, Write(0, 2, One)) && PastOf(G, S0, run, 3) == Past(None, None)
  {
    var r0 := Start();
    Next(r0, Acquire(0, 2), In0(map[0 := Head, 2 := Data([])], {}, [], {}, map[2 := 0], {}));
    var r1 := Then(r0, Acquire(0, 2));
    Next(r1, Modify(0, 2, One), In0(map[0 := Head, 2 := One], {}, [], {}, map[2 := 0], {2}));
    var r2 := Then(r1, Modify(0, 2, One));
    Next(r2, LogWrite(0, 2), In0(map[0 := Head, 2 := One], {2}, [2], {2}, map[2 := 0], {}));
    var r3 := Then(r2, LogWrite(0, 2));
    Next(r3, Release(2), In0(map[0 := Head, 2 := One], {2}, [2], {2}, map[], {}));
    run := Then(r3, Release(2));
    assert PastOf(G, S0, r2, 2).seen == Add(None, Write(0, 2, One)) && PastOf(G, S0, r2, 3) == Past(None, None);
    assert HistoryOf(G, S0, r2).issued == Add(None, Write(0, 2, One));
  }

  /** It has changed block 3 too. */
  lemma ChangeThree() returns (run: Run)
    ensures Init(G, S0) && Legal(G, S0, run)
    ensures Exec(G, S0, run) == In0(map[0 := Head, 2 := One, 3 := One], {2}, [2], {2}, map[3 := 0], {3})
    ensures HistoryOf(G, S0, run).issued == Add(Add(None, Write(0, 2, One)), Write(0, 3, One))
    ensures PastOf(G, S0, run, 2).seen == Add(None, Write(0, 2, One)) && PastOf(G, S0, run, 3).durable == None
  {
    var r0 := LogTwo();
    Next(r0, Acquire(0, 3), In0(map[0 := Head, 2 := One, 3 := Data([])], {2}, [2], {2}, map[3 := 0], {}));
    var r1 := Then(r0, Acquire(0, 3));
    Next(r1, Modify(0, 3, One), In0(map[0 := Head, 2 := One, 3 := One], {2}, [2], {2}, map[3 := 0], {3}));
    run := Then(r1, Modify(0, 3, One));
  }

  /** And it has released block 3 unlogged, and ended. */
  lemma StrayThree() returns (run: Run)
    ensures Init(G, S0) && Legal(G, S0, run)
    ensures Exec(G, S0, run) ==
      In0(map[0 := Head, 2 := One, 3 := One], {2}, [2], {2}, map[], {3}).(
        outstanding := 0, ops := [Out], committing := true, phase := Starting)
    ensures HistoryOf(G, S0, run).issued == Add(Add(None, Write(0, 2, One)), Write(0, 3, One))
    ensures PastOf(G, S0, run, 2).seen == Add(None, Write(0, 2, One)) && PastOf(G, S0, run, 3).durable == None
  {
    var r0 := ChangeThree();
    var t := In0(map[0 := Head, 2 := One, 3 := One], {2}, [2], {2}, map[], {3});
    Next(r0, Release(3), t);
    var r1 := Then(r0, Release(3));
    Next(r1, End(0), t.(outstanding := 0, ops := [Out], committing := true, phase := Starting));
    run := Then(r1, End(0));
  }

  /** The commit has copied block 2 to the log. */
  lemma CopyTwo() returns (run: Run)
    ensures Init(G, S0) && Legal(G, S0, Then(run, WriteHead)) && Exec(G, S0, run).lh == [2]
    ensures HistoryOf(G, S0, run).issued == Add(Add(None, Write(0, 2, One)), Write(0, 3, One))
    ensures PastOf(G, S0, run, 2).seen == Add(None, Write(0, 2, One)) && PastOf(G, S0, run, 3).durable == None
  {
    var r0 := StrayThree();
    var s := Exec(G, S0, r0).(phase := Copying(0));
    Next(r0, StartCommit, s);
    var r1 := Then(r0, StartCommit);
    Next(r1, CopyToLog, Copied(G, s, 0));
    run := Then(r1, CopyToLog);
  }

  /** An operation that logs block 2 and releases block 3 unlogged is committed without the latter. */
  lemma StrayWriteIsTorn()
    ensures Init(G, S0)
    ensures exists run :: Legal(G, S0, run) && !NoneDurable(G, S0, run, 0, 2) && !AllDurable(G, S0, run, 0, 3)
  {
    var r := CopyTwo();
    var run := Then(r, WriteHead);
    assert HistoryOf(G, S0, run).issued == HistoryOf(G, S0, r).issued;
    assert Of(On(HistoryOf(G, S0, run).issued, 3), 0) == Add(None, Write(0, 3, One));
    assert !NoneDurable(G, S0, run, 0, 2) && !AllDurable(G, S0, run, 0, 3);
  }
}
