/**
 The Clock algorithm that kernel/kalloc.c and PA3/kalloc.c share: the hand, the
 reference bits it clears, and the frame at which it stops.
 */
module Clock {
  // ---------- Second chance ----------

  /** How many hand steps before frame i is looked at. */
  function Rank(n: nat, hand: nat, i: nat): nat
    requires hand < n && i < n
  {
    if i >= hand then i - hand else i + n - hand
  }

  /**
   The second-chance victim: the first evictable frame in hand order whose
   reference bit is clear, or the first evictable frame when all bits are set.
   */
  ghost predicate SecondChance(evictable: seq<bool>, ref: seq<bool>, hand: nat, v: nat) {
    && |ref| == |evictable| && hand < |evictable| && v < |evictable| && evictable[v]
    && var n := |evictable|;
       (|| (!ref[v] && forall i: nat {:trigger ref[i]} ::
              i < n && evictable[i] && Rank(n, hand, i) < Rank(n, hand, v) ==> ref[i])
        || (&& (forall i: nat {:trigger ref[i]} :: i < n && evictable[i] ==> ref[i])
            && (forall i: nat {:trigger evictable[i]} ::
                  i < n && evictable[i] ==> Rank(n, hand, v) <= Rank(n, hand, i))))
  }

  /** There is only one such frame. */
  lemma VictimUnique(evictable: seq<bool>, ref: seq<bool>, hand: nat, v: nat, w: nat)
    requires SecondChance(evictable, ref, hand, v) && SecondChance(evictable, ref, hand, w)
    ensures v == w
  {
  }

  // A frame-table entry; owner is whatever else it records
  datatype Frame<T> = Frame(inUse: bool, owner: T, ref: bool)

  function InUse<T>(fs: seq<Frame<T>>): (r: seq<bool>)
    ensures |r| == |fs|
  {
    seq(|fs|, i requires 0 <= i < |fs| => fs[i].inUse)
  }

  function Refs<T>(fs: seq<Frame<T>>): (r: seq<bool>)
    ensures |r| == |fs|
  {
    seq(|fs|, i requires 0 <= i < |fs| => fs[i].ref)
  }

  /** The frame table once the hand has stopped at v: the bits it passed are clear. */
  function Passed<T>(fs: seq<Frame<T>>, hand: nat, v: nat): (r: seq<Frame<T>>)
    requires hand < |fs| && v < |fs|
    ensures |r| == |fs|
  {
    seq(|fs|, i requires 0 <= i < |fs| =>
      if fs[i].inUse && (fs[v].ref || Rank(|fs|, hand, i) < Rank(|fs|, hand, v)) then fs[i].(ref := false) else fs[i])
  }

  ghost predicate AnyInUse<T>(fs: seq<Frame<T>>) { exists i: nat :: i < |fs| && fs[i].inUse }

  ghost predicate SweptAt<T>(fs: seq<Frame<T>>, now: seq<Frame<T>>, h0: nat, steps: nat, i: nat)
    requires h0 < |fs| == |now| && i < |fs|
  {
    var r := Rank(|fs|, h0, i);
    if fs[i].inUse then
      && now[i] == (if r < steps then fs[i].(ref := false) else fs[i])
      && (r < steps ==> fs[i].ref) && (steps >= |fs| ==> r >= steps - |fs|)
    else
      now[i] == fs[i]
  }

  /** The frame table after some hand steps without a victim. */
  ghost predicate Sweeping<T>(fs: seq<Frame<T>>, now: seq<Frame<T>>, h0: nat, hand: nat, steps: nat) {
    && h0 < |fs| == |now| && hand < |fs| && steps < 2 * |fs| && AnyInUse(fs)
    && Rank(|fs|, h0, hand) == (if steps < |fs| then steps else steps - |fs|)
    && forall i: nat {:trigger SweptAt(fs, now, h0, steps, i)} :: i < |fs| ==> SweptAt(fs, now, h0, steps, i)
  }

  lemma HandStep<T>(fs: seq<Frame<T>>, now: seq<Frame<T>>, h0: nat, hand: nat, steps: nat)
    requires Sweeping(fs, now, h0, hand, steps)
    ensures !now[hand].inUse ==> Sweeping(fs, now, h0, (hand + 1) % |fs|, steps + 1)
    ensures now[hand].inUse && now[hand].ref ==>
      Sweeping(fs, now[hand := now[hand].(ref := false)], h0, (hand + 1) % |fs|, steps + 1)
    ensures now[hand].inUse && !now[hand].ref ==>
      SecondChance(InUse(fs), Refs(fs), h0, hand) && now == Passed(fs, h0, hand)
  {
    assert SweptAt(fs, now, h0, steps, hand);
    if now[hand].inUse && !now[hand].ref {
      HandStop(fs, now, h0, hand, steps);
    } else {
      NextRank(|fs|, h0, hand);
      HandOn(fs, now, if now[hand].inUse then now[hand := now[hand].(ref := false)] else now, h0, hand, steps);
    }
  }

  lemma NextHand(n: nat, hand: nat)
    requires hand < n
    ensures (hand + 1) % n == (if hand + 1 < n then hand + 1 else 0)
  {
  }

  lemma NextRank(n: nat, h0: nat, hand: nat)
    requires h0 < n && hand < n
    ensures (hand + 1) % n < n
    ensures Rank(n, h0, (hand + 1) % n) == (if Rank(n, h0, hand) + 1 < n then Rank(n, h0, hand) + 1 else 0)
  {
    NextHand(n, hand);
  }

  lemma HandOn<T>(fs: seq<Frame<T>>, now: seq<Frame<T>>, now': seq<Frame<T>>, h0: nat, hand: nat, steps: nat)
    requires Sweeping(fs, now, h0, hand, steps) && |now'| == |now|
    requires fs[hand].inUse ==> now[hand].ref && now' == now[hand := now[hand].(ref := false)]
    requires !fs[hand].inUse ==> now' == now
    ensures steps + 1 < 2 * |fs|
    ensures forall i: nat {:trigger SweptAt(fs, now', h0, steps + 1, i)} ::
      i < |fs| ==> SweptAt(fs, now', h0, steps + 1, i)
  {
    assert SweptAt(fs, now, h0, steps, hand);
    forall i: nat {:trigger SweptAt(fs, now', h0, steps + 1, i)} | i < |fs|
      ensures SweptAt(fs, now', h0, steps + 1, i)
    {
      assert SweptAt(fs, now, h0, steps, i);
    }
    var u: nat :| u < |fs| && fs[u].inUse;
    assert SweptAt(fs, now, h0, steps, u);
  }

  lemma HandStop<T>(fs: seq<Frame<T>>, now: seq<Frame<T>>, h0: nat, hand: nat, steps: nat)
    requires Sweeping(fs, now, h0, hand, steps) && now[hand].inUse && !now[hand].ref
    ensures SecondChance(InUse(fs), Refs(fs), h0, hand) && now == Passed(fs, h0, hand)
  {
    var n, e, r := |fs|, InUse(fs), Refs(fs);
    assert SweptAt(fs, now, h0, steps, hand);
    forall i: nat | i < n
      ensures now[i] == Passed(fs, h0, hand)[i]
      ensures e[i] && Rank(n, h0, i) < Rank(n, h0, hand) ==> r[i]
      ensures r[hand] && e[i] ==> r[i] && Rank(n, h0, hand) <= Rank(n, h0, i)
    {
      assert SweptAt(fs, now, h0, steps, i);
    }
  }
}
