/**
 The frame table and the scheduler-aware Clock of PA3/kalloc.c.
 */
module ClockVictim {
  import opened Clock

  // Whose page a frame holds: the process (p), or none
  datatype Entry = Nobody(va: nat, pa: nat) | Owned(id: nat, va: nat, pa: nat)

  type Slot = Clock.Frame<Entry>

  // ---------- Counting ----------

  function Count(fs: seq<Slot>, n: nat): nat
    requires n <= |fs|
  {
    if n == 0 then 0 else Count(fs, n - 1) + if fs[n - 1].inUse then 1 else 0
  }

  lemma {:induction false} CountUpdate(fs: seq<Slot>, i: nat, f: Slot, n: nat)
    requires i < |fs| && n <= |fs|
    ensures Count(fs[i := f], n) ==
      Count(fs, n) + (if i < n && f.inUse then 1 else 0) - (if i < n && fs[i].inUse then 1 else 0)
  {
    if n > 0 { CountUpdate(fs, i, f, n - 1); }
  }

  lemma {:induction false} CountBounds(fs: seq<Slot>, n: nat)
    requires n <= |fs|
    ensures Count(fs, n) <= n
    ensures Count(fs, n) == 0 <==> forall i :: 0 <= i < n ==> !fs[i].inUse
    ensures Count(fs, n) == n <==> forall i :: 0 <= i < n ==> fs[i].inUse
  {
    if n > 0 { CountBounds(fs, n - 1); }
  }

  lemma {:induction false} CountSame(fs: seq<Slot>, gs: seq<Slot>, n: nat)
    requires |fs| == |gs| && n <= |fs| && InUse(fs) == InUse(gs)
    ensures Count(fs, n) == Count(gs, n)
  {
    if n > 0 {
      CountSame(fs, gs, n - 1);
      assert InUse(fs)[n - 1] == InUse(gs)[n - 1];
    }
  }

  // ---------- The victim ----------

  function Level(f: Slot, levels: seq<int>): int {
    if f.owner.Owned? && f.owner.id < |levels| then levels[f.owner.id] else 0
  }

  predicate Clear(fs: seq<Slot>, i: nat) { i < |fs| && fs[i].inUse && !fs[i].ref }

  /** A clear frame of the highest level among clear frames. */
  ghost predicate Top(fs: seq<Slot>, levels: seq<int>, i: nat) {
    && Clear(fs, i)
    && forall k: nat {:trigger Clear(fs, k)} :: Clear(fs, k) ==> Level(fs[k], levels) <= Level(fs[i], levels)
  }

  /**
   The code's choice, given the first clear frame j that the hand meets: j if it is a
   top frame, else the top frame of lowest index.
   */
  ghost predicate Chosen(fs: seq<Slot>, levels: seq<int>, j: nat, v: nat) {
    && Top(fs, levels, v)
    && (Top(fs, levels, j) ==> v == j)
    && (!Top(fs, levels, j) ==> forall k: nat {:trigger Top(fs, levels, k)} :: Top(fs, levels, k) ==> v <= k)
  }

  /** Frame v comes first in hand order among the top frames. */
  ghost predicate FirstTop(fs: seq<Slot>, levels: seq<int>, hand: nat, v: nat) {
    && hand < |fs| && Top(fs, levels, v)
    && forall k: nat {:trigger Top(fs, levels, k)} :: Top(fs, levels, k) ==> Rank(|fs|, hand, v) <= Rank(|fs|, hand, k)
  }

  /** The hand met j before every other clear frame of the table as it was. */
  ghost predicate FirstMet(fs: seq<Slot>, gs: seq<Slot>, hand: nat, j: nat) {
    && |gs| == |fs| && SecondChance(InUse(fs), Refs(fs), hand, j) && gs == Passed(fs, hand, j)
  }

  /**
   Ties: the chosen frame is the first top frame in hand order exactly when the
   frame j at which the hand stopped is a top frame and those it passed are of lower
   levels, or j is not and the top frames all lie on one side of the hand.
   */
  lemma TiesIff(fs: seq<Slot>, gs: seq<Slot>, levels: seq<int>, hand: nat, j: nat, v: nat)
    requires FirstMet(fs, gs, hand, j) && Chosen(gs, levels, j, v)
    ensures Clear(gs, j)
    ensures Top(gs, levels, j) ==> (FirstTop(gs, levels, hand, v) <==>
      forall k: nat {:trigger fs[k]} :: k < |fs| && fs[k].inUse && Rank(|fs|, hand, k) < Rank(|fs|, hand, j) ==>
        Level(fs[k], levels) < Level(fs[j], levels))
    ensures !Top(gs, levels, j) ==> (FirstTop(gs, levels, hand, v) <==>
      || (forall k: nat {:trigger Top(gs, levels, k)} :: Top(gs, levels, k) ==> k < hand)
      || (forall k: nat {:trigger Top(gs, levels, k)} :: Top(gs, levels, k) ==> k >= hand))
  {
    StopsClear(fs, gs, hand, j);
    if Top(gs, levels, j) {
      TiesAtStop(fs, gs, levels, hand, j);
    } else if FirstTop(gs, levels, hand, v) && v < hand {
      forall k: nat {:trigger Top(gs, levels, k)} | Top(gs, levels, k)
        ensures k < hand
      {
        assert Rank(|gs|, hand, v) <= Rank(|gs|, hand, k);
      }
    }
  }

  lemma StopsClear(fs: seq<Slot>, gs: seq<Slot>, hand: nat, j: nat)
    requires FirstMet(fs, gs, hand, j)
    ensures Clear(gs, j)
    ensures forall k: nat {:trigger fs[k]} ::
      k < |fs| && fs[k].inUse && Rank(|fs|, hand, k) < Rank(|fs|, hand, j) ==> Clear(gs, k)
  {
  }

  lemma TiesAtStop(fs: seq<Slot>, gs: seq<Slot>, levels: seq<int>, hand: nat, j: nat)
    requires FirstMet(fs, gs, hand, j) && Top(gs, levels, j)
    ensures FirstTop(gs, levels, hand, j) <==>
      forall k: nat {:trigger fs[k]} :: k < |fs| && fs[k].inUse && Rank(|fs|, hand, k) < Rank(|fs|, hand, j) ==>
        Level(fs[k], levels) < Level(fs[j], levels)
  {
    StopsClear(fs, gs, hand, j);
    if FirstTop(gs, levels, hand, j) {
      forall k: nat {:trigger fs[k]} | k < |fs| && fs[k].inUse && Rank(|fs|, hand, k) < Rank(|fs|, hand, j)
        ensures Level(fs[k], levels) < Level(fs[j], levels)
      {
        assert Clear(gs, k) && !Top(gs, levels, k);
      }
    }
    if forall k: nat {:trigger fs[k]} :: k < |fs| && fs[k].inUse && Rank(|fs|, hand, k) < Rank(|fs|, hand, j) ==>
        Level(fs[k], levels) < Level(fs[j], levels) {
      forall k: nat {:trigger Top(gs, levels, k)} | Top(gs, levels, k)
        ensures Rank(|gs|, hand, j) <= Rank(|gs|, hand, k)
      {
        assert fs[k].inUse && Clear(gs, j);
      }
    }
  }

  /**
   Three clear frames of levels 2, 1 and 2 with the hand at the middle one: frame 0 is
   chosen though frame 2 comes first.
   */
  lemma TiesCanGoToALaterFrame()
    ensures exists fs: seq<Slot>, levels: seq<int>, hand: nat, j: nat, v: nat ::
      FirstMet(fs, fs, hand, j) && Chosen(fs, levels, j, v) && !FirstTop(fs, levels, hand, v)
  {
    var high, low := Frame(true, Owned(0, 0, 0), false), Frame(true, Owned(1, 0, 0), false);
    var fs := [high, low, high];
    var levels := [2, 1];
    assert fs == Passed(fs, 1, 1);
    assert InUse(fs) == [true, true, true] && Refs(fs) == [false, false, false];
    assert forall k: nat :: Clear(fs, k) ==> k == 0 || k == 1 || k == 2;
    assert Clear(fs, 0) && Clear(fs, 2);
    assert Top(fs, levels, 0) && Top(fs, levels, 2) && !Top(fs, levels, 1);
    assert Chosen(fs, levels, 1, 0) && FirstMet(fs, fs, 1, 1);
    assert Rank(3, 1, 0) == 2 && Rank(3, 1, 2) == 1;
    assert !FirstTop(fs, levels, 1, 0);
  }

  /** (hand + i) % n for up to one whole turn. */
  function Turn(hand: nat, i: nat, n: nat): (r: nat)
    requires hand < n && i <= n
    ensures r < n
  {
    if hand + i < n then hand + i else hand + i - n
  }

  lemma TurnIs(hand: nat, i: nat, n: nat)
    requires hand < n && i < n
    ensures (hand + i) % n == Turn(hand, i, n)
  {
    if hand + i < n { ModIs(hand + i, n, 0, hand + i); } else { ModIs(hand + i, n, 1, hand + i - n); }
  }

  lemma ModIs(a: int, n: int, q: int, r: int)
    requires 0 <= r < n && a == q * n + r
    ensures a % n == r
  {
    var d := a / n - q;
    assert a == (a / n) * n + a % n;
    assert d * n == r - a % n;
    assert d >= 1 ==> d * n >= n;
    assert d <= -1 ==> d * n <= -n;
  }

  lemma SweepStarts(fs: seq<Slot>, hand: nat)
    requires hand < |fs| && exists i :: 0 <= i < |fs| && fs[i].inUse
    ensures Sweeping(fs, fs, hand, hand, 0)
  {
  }

  lemma SameCount(fs: seq<Slot>, gs: seq<Slot>, hand: nat, j: nat)
    requires FirstMet(fs, gs, hand, j)
    ensures Count(fs, |fs|) == Count(gs, |gs|)
  {
    assert InUse(fs) == InUse(gs);
    CountSame(fs, gs, |fs|);
  }

  // ---------- The frame table ----------

  class FrameTable {
    const table: array<Slot>
    var hand: nat          // clock_hand
    var userFrames: nat    // user_frames

    /** user_frames is the number of entries in use. */
    ghost predicate Valid()
      reads this, table
    {
      hand < table.Length && userFrames == Count(table[..], table.Length)
    }

    constructor (n: nat)
      requires n > 0
      ensures Valid() && fresh(table) && table.Length == n && userFrames == 0
    {
      table := new Slot[n](_ => Frame(false, Nobody(0, 0), false));
      hand, userFrames := 0, 0;
      new;
      CountBounds(table[..], n);
    }

    /** frame_alloc: the first free entry; 1 when there is none. */
    method FrameAlloc(id: nat, va: nat, pa: nat) returns (r: int)
      requires Valid()
      modifies this`userFrames, table
      ensures Valid() && (r == 0 || r == 1)
      ensures r == 1 <==> old(userFrames) == table.Length
      ensures r == 1 ==> table[..] == old(table[..])
      ensures r == 0 ==> exists i: nat ::
        && i < table.Length && !old(table[i].inUse) && (forall k :: 0 <= k < i ==> old(table[k].inUse))
        && table[..] == old(table[..])[i := Frame(true, Owned(id, va, pa), true)]
    {
      CountBounds(table[..], table.Length);
      if userFrames < table.Length {
        var i := 0;
        while i < table.Length
          invariant 0 <= i <= table.Length && table[..] == old(table[..]) && userFrames == old(userFrames)
          invariant forall k :: 0 <= k < i ==> table[k].inUse
        {
          if !table[i].inUse {
            var f := Frame(true, Owned(id, va, pa), true);
            CountUpdate(table[..], i, f, table.Length);
            table[i] := f;
            userFrames := userFrames + 1;
            assert table[..] == old(table[..])[i := f];
            return 0;
          }
          i := i + 1;
        }
      }
      r := 1;
    }

    /** frame_free: the first in-use entry for the page, if any. */
    method FrameFree(pa: nat)
      requires Valid()
      modifies this`userFrames, table
      ensures Valid()
      ensures (forall i :: 0 <= i < table.Length ==> !Holds(old(table[i]), pa)) ==> table[..] == old(table[..])
      ensures (exists i :: 0 <= i < table.Length && Holds(old(table[i]), pa)) ==>
        exists i: nat ::
          && i < table.Length && Holds(old(table[i]), pa) && (forall k :: 0 <= k < i ==> !Holds(old(table[k]), pa))
          && table[..] == old(table[..])[i := Frame(false, Nobody(0, 0), false)]
    {
      var i := 0;
      while i < table.Length
        invariant 0 <= i <= table.Length && table[..] == old(table[..]) && Valid()
        invariant forall k :: 0 <= k < i ==> !Holds(table[k], pa)
      {
        if table[i].inUse && table[i].owner.pa == pa {
          var f := Frame(false, Nobody(0, 0), false);
          CountUpdate(table[..], i, f, table.Length);
          CountBounds(table[..], table.Length);
          table[i] := f;
          userFrames := userFrames - 1;
          assert table[..] == old(table[..])[i := f];
          break;
        }
        i := i + 1;
      }
    }

    /** clck_victim, given the levels of the processes. */
    method Victim(levels: seq<int>) returns (v: int)
      requires Valid()
      modifies this`hand, table
      ensures Valid()
      ensures v == -1 <==> userFrames == 0
      ensures v == -1 ==> table[..] == old(table[..]) && hand == old(hand)
      ensures v != -1 ==>
        && 0 <= v < table.Length && hand == (v + 1) % table.Length
        && exists j: nat :: FirstMet(old(table[..]), table[..], old(hand), j) && Chosen(table[..], levels, j, v)
    {
      if userFrames == 0 { return -1; }
      ghost var fs := table[..];
      CountBounds(fs, |fs|);
      SweepStarts(fs, hand);
      for pass := 0 to 2
        invariant hand == old(hand) && pass < 2 && Sweeping(fs, table[..], hand, hand, if pass == 0 then 0 else |fs|)
      {
        var j := OnePass(fs, if pass == 0 then 0 else |fs|);
        if j != -1 {
          SameCount(fs, table[..], hand, j);
          v := PickBest(levels, j);
          hand := (v + 1) % table.Length;
          return;
        }
      }
      v := -1;
    }

    /** The hand looks at one frame: stop there, or clear its bit and go on. */
    method Visit(j: nat, ghost fs: seq<Slot>, ghost h: nat, ghost steps: nat) returns (stop: bool)
      requires Sweeping(fs, table[..], h, j, steps)
      modifies table
      ensures stop ==> Clear(table[..], j) && FirstMet(fs, table[..], h, j)
      ensures !stop ==> Sweeping(fs, table[..], h, if j + 1 < |fs| then j + 1 else 0, steps + 1)
    {
      NextHand(|fs|, j);
      HandStep(fs, table[..], h, j, steps);
      if table[j].inUse {
        if !table[j].ref { return true; }
        table[j] := table[j].(ref := false);
      }
      stop := false;
    }

    /** One turn of the hand, up to the first clear frame; -1 when there was none. */
    method OnePass(ghost fs: seq<Slot>, ghost steps: nat) returns (j: int)
      requires Sweeping(fs, table[..], hand, hand, steps) && (steps == 0 || steps == |fs|)
      modifies table
      ensures j == -1 ==> steps == 0 && Sweeping(fs, table[..], hand, hand, |fs|)
      ensures j != -1 ==> 0 <= j < table.Length && Clear(table[..], j) && FirstMet(fs, table[..], hand, j)
    {
      for i := 0 to table.Length
        invariant Sweeping(fs, table[..], hand, Turn(hand, i, table.Length), steps + i)
      {
        TurnIs(hand, i, table.Length);
        var at := (hand + i) % table.Length;
        var stop := Visit(at, fs, hand, steps + i);
        if stop { return at; }
      }
      j := -1;
    }

    /** The inner loop: the best level among clear frames, starting from frame j. */
    method PickBest(levels: seq<int>, j: nat) returns (best: nat)
      requires Clear(table[..], j)
      ensures Chosen(table[..], levels, j, best)
    {
      ghost var gs := table[..];
      best := j;
      for k := 0 to table.Length
        invariant Clear(gs, best) && gs == table[..]
        invariant forall i: nat {:trigger Clear(gs, i)} ::
          i < k && Clear(gs, i) ==> Level(gs[i], levels) <= Level(gs[best], levels)
        invariant Level(gs[j], levels) <= Level(gs[best], levels)
        invariant best != j ==>
          && Level(gs[j], levels) < Level(gs[best], levels)
          && forall i: nat {:trigger Clear(gs, i)} ::
               i < best && Clear(gs, i) ==> Level(gs[i], levels) < Level(gs[best], levels)
      {
        if table[k].inUse && !table[k].ref {
          assert Clear(gs, k);
          if Level(table[k], levels) > Level(table[best], levels) { best := k; }
        }
      }
      assert Top(gs, levels, best);
    }
  }

  predicate Holds(f: Slot, pa: nat) { f.inUse && f.owner.pa == pa }
}
