/** A run of the log machine that reaches the panic of log_write on a full log. */
module LogFull {
  import opened RedoLog

  // The panic of log_write on a full log is reachable by operations within their reservations

  const SmallLog := Geometry(0, 3, 1)
  const SmallDisk := [Header(0, [0, 0, 0])] + seq(6, _ => Data([]))
  const SmallBoot := State(SmallDisk, map[], {}, [], 0, false, [Out, Out, Out], map[], {}, Booting, 0)

  /** Three operations have begun, with an empty log of three blocks. */
  lemma ThreeBegun() returns (run: Run)
    ensures Init(SmallLog, SmallBoot) && Legal(SmallLog, SmallBoot, run)
    ensures
      var s := Exec(SmallLog, SmallBoot, run);
      && s.ops == [In(0, {}), In(1, {}), In(2, {})] && s.lh == [] && s.phase.Idle?
      && s.holder == map[] && |s.disk| == 7 && s.outstanding == 3
  {
    assert SmallBoot.ops == seq(3, _ => Out);
    run := Then(Then(Boot, ReadHead), RecoverClear);
    assert Exec(SmallLog, SmallBoot, run).lh == [];
    run := Then(Then(Then(run, Begin(0)), Begin(1)), Begin(2));
  }

  /** Operation p, which has logged nothing yet, locks, changes and logs block b. */
  lemma LogOne(g: Geometry, s0: State, run: Run, p: nat, b: nat) returns (run': Run)
    requires g.start == 0 && g.logBlocks == 3 && g.maxOp == 1 && Legal(g, s0, run) && p < 3 && 4 <= b < 7
    requires
      var s := Exec(g, s0, run);
      && |s.ops| == 3 && s.ops[p] == In(p, {}) && b !in s.lh && |s.lh| < 3 && s.phase.Idle?
      && b !in s.holder && |s.disk| == 7 && s.outstanding == 3
    ensures Legal(g, s0, run')
    ensures
      var s, t := Exec(g, s0, run), Exec(g, s0, run');
      && t.ops == s.ops[p := In(p, {b})] && t.lh == s.lh + [b] && t.phase.Idle?
      && t.holder == s.holder[b := p] && |t.disk| == 7 && t.outstanding == 3
  {
    assert {} + {b} == {b};
    var s := Exec(g, s0, run);
    run' := Then(run, Acquire(p, b));
    assert Exec(g, s0, run') == Acquired(s, p, b);
    run' := Then(run', Modify(p, b, Data([1])));
    assert Exec(g, s0, run') == Modified(Acquired(s, p, b), b, Data([1]));
    run' := Then(run', LogWrite(p, b));
  }

  /** A second log_write of a block already in the log, from within a reservation, can panic. */
  lemma AbsorbedWriteCanPanic()
    ensures Init(SmallLog, SmallBoot)
    ensures exists run ::
      && Legal(SmallLog, SmallBoot, run)
      && MayLog(SmallLog, Exec(SmallLog, SmallBoot, run), 0, 4)
      && LogWritePanics(SmallLog, Exec(SmallLog, SmallBoot, run))
  {
    var t0 := ThreeBegun();
    var t1 := LogOne(SmallLog, SmallBoot, t0, 0, 4);
    var t2 := LogOne(SmallLog, SmallBoot, t1, 1, 5);
    var t3 := LogOne(SmallLog, SmallBoot, t2, 2, 6);
  }
}
