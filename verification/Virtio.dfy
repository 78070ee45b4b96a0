/**
 The descriptor and ring handling of kernel/virtio_disk.c, after sections 2.6 and
 5.2 of VIRTIO 1.1. The driver's sections under vdisk_lock and the device's own
 actions are methods, so every interleaving of requests, interrupts and a device
 that completes chains in any order is a sequence of calls.
 */
module Virtio {
  const WRAP: nat := 65536

  // What a descriptor points at: a request header, of type VIRTIO_BLK_T_OUT or not
  // and with a sector number, a buffer's data, or a status byte
  datatype Place = Nowhere | Header(head: nat, out: bool, sector: nat) | Payload(buf: nat) | StatusOf(head: nat)

  // more: VRING_DESC_F_NEXT; write: VRING_DESC_F_WRITE
  datatype Desc = Desc(place: Place, more: bool, write: bool, next: nat)

  datatype Info = Idle | For(buf: nat)

  // A request in progress: its descriptors after the head, its buffer, direction and block
  datatype Chain = Chain(mid: nat, last: nat, buf: nat, write: bool, blockno: nat)

  // Where a request is: offered at a position of the available ring, in the device's
  // hands, at a position of the used ring, or seen by the interrupt handler
  datatype Stage = Offered(p: nat) | Taken | Done(p: nat) | Seen

  // availLog and usedLog: all heads ever put in the rings; taken and seen: how many
  // the device and the driver have consumed. busy: the buffers with disk == 1
  datatype State = State(
    free: seq<bool>, desc: seq<Desc>, info: seq<Info>, status: seq<nat>, avail: seq<nat>, used: seq<nat>,
    busy: set<nat>,
    chains: map<nat, Chain>, stage: map<nat, Stage>, owner: map<nat, nat>, inFlight: map<nat, nat>,
    availLog: seq<nat>, taken: nat, usedLog: seq<nat>, seen: nat)

  predicate Member(h: nat, c: Chain, i: nat) { i == h || i == c.mid || i == c.last }

  function HeadDesc(h: nat, c: Chain): Desc { Desc(Header(h, c.write, c.blockno * 2), true, false, c.mid) }
  function MidDesc(c: Chain): Desc { Desc(Payload(c.buf), true, !c.write, c.last) }
  function LastDesc(h: nat): Desc { Desc(StatusOf(h), false, true, 0) }

  /**
   What the device finds from head h on: a header it reads, which says to write or to
   read the sectors of the block; the buffer's data, which it may write exactly if
   the request is a read; and a status byte, which it may write.
   */
  predicate Laid(desc: seq<Desc>, h: nat, buf: nat, write: bool, blockno: nat) {
    && h < |desc| && desc[h].next < |desc| && desc[desc[h].next].next < |desc|
    && var head, mid := desc[h], desc[desc[h].next];
       var last := desc[mid.next];
       && head.place == Header(h, write, 2 * blockno) && !head.write && head.more
       && mid.place == Payload(buf) && (mid.write <==> !write) && mid.more
       && last.place == StatusOf(h) && last.write && !last.more
  }

  /** A descriptor is free, or a member of exactly one chain. */
  ghost predicate DescOk(s: State, i: nat) {
    i < |s.free| ==>
      && (s.free[i] <==> i !in s.owner)
      && (i in s.owner ==> s.owner[i] in s.chains && Member(s.owner[i], s.chains[s.owner[i]], i))
  }

  ghost predicate Shaped(s: State) {
    0 < |s.free| == |s.desc| == |s.info| == |s.status| == |s.avail| == |s.used|
  }

  /** A chain has three descriptors of its own, laid out as the device expects. */
  ghost predicate ChainOk(s: State, h: nat)
    requires Shaped(s)
  {
    h in s.chains ==>
      var c := s.chains[h];
      && h < |s.free| && c.mid < |s.free| && c.last < |s.free| && h != c.mid && h != c.last && c.mid != c.last
      && h in s.owner && c.mid in s.owner && c.last in s.owner && s.owner[h] == s.owner[c.mid] == s.owner[c.last] == h
      && s.desc[h] == HeadDesc(h, c) && s.desc[c.mid] == MidDesc(c) && s.desc[c.last] == LastDesc(h)
      && s.info[h] == For(c.buf) && c.buf in s.inFlight && s.inFlight[c.buf] == h
      && h in s.stage && (c.buf in s.busy <==> s.stage[h] != Seen)
      && (s.stage[h].Offered? ==> s.taken <= s.stage[h].p < |s.availLog| && s.availLog[s.stage[h].p] == h)
      && (s.stage[h].Done? ==> s.seen <= s.stage[h].p < |s.usedLog| && s.usedLog[s.stage[h].p] == h)
      && (s.stage[h].Offered? || s.stage[h].Taken? ==> s.status[h] == 255)
  }

  ghost predicate AvailOk(s: State, p: nat)
    requires |s.avail| > 0
  {
    s.taken <= p < |s.availLog| ==>
      var h := s.availLog[p];
      s.avail[p % |s.avail|] == h && h in s.chains && h in s.stage && s.stage[h] == Offered(p)
  }

  ghost predicate UsedOk(s: State, p: nat)
    requires |s.used| > 0
  {
    s.seen <= p < |s.usedLog| ==>
      var h := s.usedLog[p];
      s.used[p % |s.used|] == h && h in s.chains && h in s.stage && s.stage[h] == Done(p)
  }

  ghost predicate BufOk(s: State, b: nat) {
    && (b in s.busy ==> b in s.inFlight)
    && (b in s.inFlight ==> s.inFlight[b] in s.chains && s.chains[s.inFlight[b]].buf == b)
  }

  ghost predicate Inv(s: State) {
    && Shaped(s) && s.taken <= |s.availLog| && s.seen <= |s.usedLog|
    && (forall i: nat {:trigger DescOk(s, i)} :: DescOk(s, i))
    && (forall h: nat {:trigger ChainOk(s, h)} :: ChainOk(s, h))
    && (forall p: nat {:trigger AvailOk(s, p)} :: AvailOk(s, p))
    && (forall p: nat {:trigger UsedOk(s, p)} :: UsedOk(s, p))
    && (forall b: nat {:trigger BufOk(s, b)} :: BufOk(s, b))
  }

  /** So the device finds every request in progress laid out. */
  lemma DeviceView(s: State, h: nat)
    requires Inv(s) && h in s.chains
    ensures var c := s.chains[h]; Laid(s.desc, h, c.buf, c.write, c.blockno)
  {
    assert ChainOk(s, h);
  }

  /** Two chains share no descriptor, and no chain has a free one. */
  lemma Partition(s: State, g: nat, h: nat, i: nat)
    requires Inv(s) && h in s.chains && Member(h, s.chains[h], i)
    ensures i < |s.free| && !s.free[i]
    ensures g in s.chains && Member(g, s.chains[g], i) ==> g == h
  {
    assert ChainOk(s, h) && ChainOk(s, g) && DescOk(s, i);
  }

  /** Every descriptor that is not free belongs to a chain. */
  lemma Covered(s: State, i: nat)
    requires Inv(s) && i < |s.free| && !s.free[i]
    ensures i in s.owner && s.owner[i] in s.chains && Member(s.owner[i], s.chains[s.owner[i]], i)
  {
    assert DescOk(s, i);
  }

  // ---------- Windows of a ring ----------

  lemma {:induction false} Pigeonhole(log: seq<nat>, lo: nat, n: nat)
    requires lo <= |log|
    requires forall p :: lo <= p < |log| ==> log[p] < n
    requires forall p, q :: lo <= p < q < |log| ==> log[p] != log[q]
    ensures |log| - lo <= n
  {
    WindowSize(log, lo, |log|);
    BelowSize(set p | lo <= p < |log| :: log[p], n);
  }

  lemma {:induction false} BelowSize(s: set<nat>, n: nat)
    requires forall x :: x in s ==> x < n
    ensures |s| <= n
  {
    if n == 0 {
      assert s == {};
    } else {
      BelowSize(s - {n - 1}, n - 1);
    }
  }

  lemma {:induction false} WindowSize(log: seq<nat>, lo: nat, hi: nat)
    requires lo <= hi <= |log| && forall p, q :: lo <= p < q < hi ==> log[p] != log[q]
    ensures |set p | lo <= p < hi :: log[p]| == hi - lo
  {
    if lo < hi {
      WindowSize(log, lo, hi - 1);
      assert (set p | lo <= p < hi :: log[p]) == (set p | lo <= p < hi - 1 :: log[p]) + {log[hi - 1]};
    }
  }

  /** The entries of a ring that are still to be consumed fit into it. */
  lemma AvailFits(s: State)
    requires Inv(s)
    ensures |s.availLog| - s.taken <= |s.free|
  {
    forall p: nat | s.taken <= p < |s.availLog|
      ensures s.availLog[p] < |s.free|
    {
      assert AvailOk(s, p) && ChainOk(s, s.availLog[p]);
    }
    forall p: nat, q: nat | s.taken <= p < q < |s.availLog|
      ensures s.availLog[p] != s.availLog[q]
    {
      assert AvailOk(s, p) && AvailOk(s, q);
    }
    Pigeonhole(s.availLog, s.taken, |s.free|);
  }

  lemma UsedFits(s: State)
    requires Inv(s)
    ensures |s.usedLog| - s.seen <= |s.free|
  {
    forall p: nat | s.seen <= p < |s.usedLog|
      ensures s.usedLog[p] < |s.free|
    {
      assert UsedOk(s, p) && ChainOk(s, s.usedLog[p]);
    }
    forall p: nat, q: nat | s.seen <= p < q < |s.usedLog|
      ensures s.usedLog[p] != s.usedLog[q]
    {
      assert UsedOk(s, p) && UsedOk(s, q);
    }
    Pigeonhole(s.usedLog, s.seen, |s.free|);
  }

  lemma AvailRoom(s: State, h: nat)
    requires Inv(s) && h < |s.free| && h !in s.chains
    ensures |s.availLog| - s.taken < |s.free|
  {
    var log := s.availLog + [h];
    forall p: nat | s.taken <= p < |log|
      ensures log[p] < |s.free|
    {
      assert p < |s.availLog| ==> AvailOk(s, p) && ChainOk(s, s.availLog[p]);
    }
    forall p: nat, q: nat | s.taken <= p < q < |log|
      ensures log[p] != log[q]
    {
      assert AvailOk(s, p) && AvailOk(s, q);
    }
    Pigeonhole(log, s.taken, |s.free|);
  }

  lemma UsedRoom(s: State, h: nat)
    requires Inv(s) && h in s.chains && h in s.stage && !s.stage[h].Done?
    ensures |s.usedLog| - s.seen < |s.free|
  {
    assert ChainOk(s, h);
    var log := s.usedLog + [h];
    forall p: nat | s.seen <= p < |log|
      ensures log[p] < |s.free|
    {
      assert p < |s.usedLog| ==> UsedOk(s, p) && ChainOk(s, s.usedLog[p]);
    }
    forall p: nat, q: nat | s.seen <= p < q < |log|
      ensures log[p] != log[q]
    {
      assert UsedOk(s, p) && UsedOk(s, q);
    }
    Pigeonhole(log, s.seen, |s.free|);
  }

  lemma RingPlaces(p: nat, q: nat, n: nat)
    requires p < q < p + n
    ensures p % n != q % n
  {
    var d := q / n - p / n;
    assert q - p == d * n + (q % n - p % n);
    assert d >= 1 ==> d * n >= n;
    assert d <= 0 ==> d * n <= 0;
  }

  // ---------- Steps ----------

  /** The buffers of a new chain, its layout, and its place in the available ring. */
  function Submitted(s: State, h: nat, c: Chain): State
    requires Shaped(s) && h < |s.free| && c.mid < |s.free| && c.last < |s.free|
  {
    s.(free := s.free[h := false][c.mid := false][c.last := false],
       desc := s.desc[h := HeadDesc(h, c)][c.mid := MidDesc(c)][c.last := LastDesc(h)],
       info := s.info[h := For(c.buf)], status := s.status[h := 255],
       avail := s.avail[|s.availLog| % |s.avail| := h], busy := s.busy + {c.buf},
       chains := s.chains[h := c], stage := s.stage[h := Offered(|s.availLog|)],
       owner := s.owner[h := h][c.mid := h][c.last := h], inFlight := s.inFlight[c.buf := h],
       availLog := s.availLog + [h])
  }

  ghost predicate CanSubmit(s: State, h: nat, c: Chain) {
    && Inv(s) && h < |s.free| && c.mid < |s.free| && c.last < |s.free| && h != c.mid && h != c.last && c.mid != c.last
    && s.free[h] && s.free[c.mid] && s.free[c.last] && c.buf !in s.inFlight
  }

  /** A chain of which nothing changed is as it was. */
  lemma ChainFrame(s: State, t: State, h: nat)
    requires Shaped(s) && Shaped(t) && |s.free| == |t.free| && ChainOk(s, h)
    requires h in t.chains ==> h in s.chains && t.chains[h] == s.chains[h]
    requires h in t.chains ==> h in t.stage && h in s.stage && t.stage[h] == s.stage[h]
    requires h in t.chains ==>
      forall i: nat {:trigger Member(h, s.chains[h], i)} :: Member(h, s.chains[h], i) && i < |s.desc| ==>
        t.desc[i] == s.desc[i] && (i in s.owner ==> i in t.owner && t.owner[i] == s.owner[i])
    requires h in t.chains && h < |s.info| ==> t.info[h] == s.info[h] && t.status[h] == s.status[h]
    requires h in t.chains && s.chains[h].buf in s.inFlight ==>
      && s.chains[h].buf in t.inFlight && t.inFlight[s.chains[h].buf] == s.inFlight[s.chains[h].buf]
      && (s.chains[h].buf in t.busy <==> s.chains[h].buf in s.busy)
    requires h in t.chains ==>
      && (s.stage[h].Offered? ==> t.taken <= s.stage[h].p < |t.availLog| && t.availLog[s.stage[h].p] == h)
      && (s.stage[h].Done? ==> t.seen <= s.stage[h].p < |t.usedLog| && t.usedLog[s.stage[h].p] == h)
    ensures ChainOk(t, h)
  {
    if h in t.chains {
      var c := s.chains[h];
      assert Member(h, c, h) && Member(h, c, c.mid) && Member(h, c, c.last);
    }
  }

  lemma SubmitChain(s: State, h: nat, c: Chain, g: nat)
    requires CanSubmit(s, h, c)
    ensures ChainOk(Submitted(s, h, c), g)
  {
    var t := Submitted(s, h, c);
    assert ChainOk(s, g) && DescOk(s, h) && DescOk(s, c.mid) && DescOk(s, c.last);
    if g != h { ChainFrame(s, t, g); }
  }

  lemma SubmitRings(s: State, h: nat, c: Chain, p: nat)
    requires CanSubmit(s, h, c)
    ensures AvailOk(Submitted(s, h, c), p) && UsedOk(Submitted(s, h, c), p)
  {
    assert AvailOk(s, p) && UsedOk(s, p) && DescOk(s, h) && ChainOk(s, h);
    AvailRoom(s, h);
    if s.taken <= p < |s.availLog| { RingPlaces(p, |s.availLog|, |s.avail|); }
  }

  lemma SubmitKeeps(s: State, h: nat, c: Chain)
    requires CanSubmit(s, h, c)
    ensures Inv(Submitted(s, h, c))
  {
    var t := Submitted(s, h, c);
    assert DescOk(s, h) && ChainOk(s, h);
    forall i: nat ensures DescOk(t, i) { assert DescOk(s, i); }
    forall g: nat ensures ChainOk(t, g) { SubmitChain(s, h, c, g); }
    forall p: nat ensures AvailOk(t, p) && UsedOk(t, p) { SubmitRings(s, h, c, p); }
    forall b: nat ensures BufOk(t, b) { assert BufOk(s, b); }
  }

  /** The device takes the next available chain. */
  function TakenNext(s: State): State
    requires s.taken < |s.availLog|
  {
    s.(stage := s.stage[s.availLog[s.taken] := Taken], taken := s.taken + 1)
  }

  lemma TakeKeeps(s: State)
    requires Inv(s) && s.taken < |s.availLog|
    ensures Inv(TakenNext(s))
  {
    var t := TakenNext(s);
    assert AvailOk(s, s.taken);
    forall i: nat ensures DescOk(t, i) { assert DescOk(s, i); }
    forall g: nat ensures ChainOk(t, g) { assert ChainOk(s, g); }
    forall p: nat ensures AvailOk(t, p) && UsedOk(t, p) { assert AvailOk(s, p) && UsedOk(s, p); }
    forall b: nat ensures BufOk(t, b) { assert BufOk(s, b); }
  }

  /** The device is done with a chain that it took, and says how it went: 0 for success. */
  function Completed(s: State, h: nat, code: nat): State
    requires Shaped(s) && h < |s.status|
  {
    s.(status := s.status[h := code], used := s.used[|s.usedLog| % |s.used| := h], usedLog := s.usedLog + [h],
       stage := s.stage[h := Done(|s.usedLog|)])
  }

  lemma CompleteRings(s: State, h: nat, code: nat, p: nat)
    requires Inv(s) && h in s.chains && h in s.stage && s.stage[h] == Taken && h < |s.status|
    ensures AvailOk(Completed(s, h, code), p) && UsedOk(Completed(s, h, code), p)
  {
    assert AvailOk(s, p) && UsedOk(s, p);
    UsedRoom(s, h);
    if s.seen <= p < |s.usedLog| { RingPlaces(p, |s.usedLog|, |s.used|); }
  }

  lemma CompleteKeeps(s: State, h: nat, code: nat)
    requires Inv(s) && h in s.chains && h in s.stage && s.stage[h] == Taken
    ensures h < |s.status| && Inv(Completed(s, h, code))
  {
    assert ChainOk(s, h);
    var t := Completed(s, h, code);
    forall i: nat ensures DescOk(t, i) { assert DescOk(s, i); }
    forall g: nat ensures ChainOk(t, g) { assert ChainOk(s, g); }
    forall p: nat ensures AvailOk(t, p) && UsedOk(t, p) { CompleteRings(s, h, code, p); }
    forall b: nat ensures BufOk(t, b) { assert BufOk(s, b); }
  }

  /** The interrupt handler sees the next used entry. */
  function SeenNext(s: State): State
    requires s.seen < |s.usedLog| && s.usedLog[s.seen] in s.chains
  {
    var h := s.usedLog[s.seen];
    s.(stage := s.stage[h := Seen], busy := s.busy - {s.chains[h].buf}, seen := s.seen + 1)
  }

  lemma SeeKeeps(s: State)
    requires Inv(s) && s.seen < |s.usedLog|
    ensures s.usedLog[s.seen] in s.chains && Inv(SeenNext(s))
  {
    assert UsedOk(s, s.seen);
    var t, h := SeenNext(s), s.usedLog[s.seen];
    assert ChainOk(s, h);
    forall i: nat ensures DescOk(t, i) { assert DescOk(s, i); }
    forall g: nat ensures ChainOk(t, g) { assert ChainOk(s, g); }
    forall p: nat ensures AvailOk(t, p) && UsedOk(t, p) { assert AvailOk(s, p) && UsedOk(s, p); }
    forall b: nat ensures BufOk(t, b) { assert BufOk(s, b); }
  }

  function Freed(): Desc { Desc(Nowhere, false, false, 0) }

  /** The requester frees its chain. */
  function Finished(s: State, h: nat): State
    requires Shaped(s) && h in s.chains && h < |s.free| && s.chains[h].mid < |s.free| && s.chains[h].last < |s.free|
  {
    var c := s.chains[h];
    s.(free := s.free[h := true][c.mid := true][c.last := true],
       desc := s.desc[h := Freed()][c.mid := Freed()][c.last := Freed()],
       info := s.info[h := Idle], chains := s.chains - {h}, stage := s.stage - {h},
       owner := s.owner - {h, c.mid, c.last}, inFlight := s.inFlight - {c.buf})
  }

  lemma FinishChain(s: State, h: nat, g: nat)
    requires Inv(s) && h in s.chains && h in s.stage && s.stage[h] == Seen
    requires h < |s.free| && s.chains[h].mid < |s.free| && s.chains[h].last < |s.free|
    ensures ChainOk(Finished(s, h), g)
  {
    assert ChainOk(s, h) && ChainOk(s, g);
    ChainFrame(s, Finished(s, h), g);
  }

  lemma FinishKeeps(s: State, h: nat)
    requires Inv(s) && h in s.chains && h in s.stage && s.stage[h] == Seen
    ensures h < |s.free| && s.chains[h].mid < |s.free| && s.chains[h].last < |s.free| && Inv(Finished(s, h))
  {
    assert ChainOk(s, h);
    var t, c := Finished(s, h), s.chains[h];
    forall i: nat ensures DescOk(t, i) { assert DescOk(s, i) && (i in s.owner ==> ChainOk(s, s.owner[i])); }
    forall g: nat ensures ChainOk(t, g) { FinishChain(s, h, g); }
    forall p: nat ensures AvailOk(t, p) && UsedOk(t, p) { assert AvailOk(s, p) && UsedOk(s, p); }
    forall b: nat ensures BufOk(t, b) { assert BufOk(s, b) && (b in s.inFlight ==> ChainOk(s, s.inFlight[b])); }
  }

  // ---------- 16-bit counters ----------

  /** A counter that wraps at 2^16 still gives the ring position, as the ring's size divides 2^16. */
  lemma WrapPosition(t: nat, n: nat)
    requires 0 < n && WRAP % n == 0
    ensures t % WRAP % n == t % n
  {
    var q, r := t / WRAP, t % WRAP;
    Factor(q, WRAP, n);
    AddMultiple(r, q * (WRAP / n), n);
    assert t == q * WRAP + r;
  }

  lemma Factor(q: int, m: int, n: int)
    requires n > 0 && m % n == 0
    ensures q * m == (q * (m / n)) * n
  {
  }

  lemma NextCount(t: nat)
    ensures (t % WRAP + 1) % WRAP == (t + 1) % WRAP
  {
  }

  lemma AddMultiple(a: int, k: int, n: int)
    requires n > 0
    ensures (k * n + a) % n == a % n
  {
    var d := (k * n + a) / n - (k + a / n);
    assert k * n + a == ((k * n + a) / n) * n + (k * n + a) % n;
    assert a == (a / n) * n + a % n;
    assert (k + a / n) * n == k * n + (a / n) * n;
    assert d * n == ((k * n + a) / n) * n - (k + a / n) * n;
    assert d >= 1 ==> d * n >= n;
    assert d <= -1 ==> d * n <= -n;
  }

  lemma WrapEqual(a: nat, b: nat)
    requires a <= b < a + WRAP
    ensures a % WRAP == b % WRAP <==> a == b
  {
  }

  // ---------- The driver and the device ----------

  class Driver {
    const num: nat               // NUM
    const free: array<bool>
    const desc: array<Desc>
    const info: array<Info>
    const status: array<nat>
    const avail: array<nat>      // the available ring
    const used: array<nat>       // the used ring
    var availIdx: nat            // avail->idx
    var deviceIdx: nat           // the device's position in the available ring
    var usedTail: nat            // used->idx
    var usedIdx: nat             // used_idx
    var busy: set<nat>           // the buffers with disk == 1
    ghost var s: State           // all of the above, and the history

    ghost predicate Sized() {
      && 0 < num < WRAP && WRAP % num == 0 && avail != used && status != avail && status != used
      && num == free.Length == desc.Length == info.Length == status.Length == avail.Length == used.Length
    }

    /** The state is as the history says, and in order. */
    ghost predicate Valid()
      reads this, free, desc, info, status, avail, used
    {
      Sized() && Inv(s) && Tied(s)
    }

    ghost predicate Tied(s: State)
      reads this, free, desc, info, status, avail, used
    {
      && s.free == free[..] && s.desc == desc[..] && s.info == info[..] && s.status == status[..]
      && s.avail == avail[..] && s.used == used[..] && s.busy == busy
      && availIdx == |s.availLog| % WRAP && deviceIdx == s.taken % WRAP
      && usedTail == |s.usedLog| % WRAP && usedIdx == s.seen % WRAP
    }

    constructor (num: nat)
      requires 0 < num < WRAP && WRAP % num == 0
      ensures Valid() && fresh(free) && fresh(desc) && fresh(info) && fresh(status) && fresh(avail) && fresh(used)
      ensures this.num == num && s.chains == map[] && forall i :: 0 <= i < num ==> free[i]
    {
      this.num := num;
      free, desc := new bool[num](_ => true), new Desc[num](_ => Freed());
      info, status := new Info[num](_ => Idle), new nat[num](_ => 0);
      avail, used := new nat[num](_ => 0), new nat[num](_ => 0);
      availIdx, deviceIdx, usedTail, usedIdx, busy := 0, 0, 0, 0, {};
      new;
      s := State(free[..], desc[..], info[..], status[..], avail[..], used[..],
        {}, map[], map[], map[], map[], [], 0, [], 0);
      forall i: nat ensures DescOk(s, i) && ChainOk(s, i) && AvailOk(s, i) && UsedOk(s, i) && BufOk(s, i) { }
    }

    /** The ring position of a counter that stands for t. */
    method Position(idx: nat, ghost t: nat) returns (at: nat)
      requires 0 < num && WRAP % num == 0 && idx == t % WRAP
      ensures at == t % num && at < num
    {
      WrapPosition(t, num);
      at := idx % num;
    }

    /** alloc_desc. */
    method AllocDesc() returns (r: int)
      modifies free
      ensures -1 <= r < free.Length
      ensures r == -1 ==> free[..] == old(free[..]) && forall i :: 0 <= i < free.Length ==> !free[i]
      ensures r != -1 ==> old(free[r]) && free[..] == old(free[..])[r := false]
    {
      for i := 0 to free.Length
        invariant free[..] == old(free[..]) && forall j :: 0 <= j < i ==> !free[j]
      {
        if free[i] {
          free[i] := false;
          return i;
        }
      }
      r := -1;
    }

    /** free_desc, which panics on a descriptor that is free. */
    method FreeDesc(i: nat)
      requires free.Length == desc.Length && i < free.Length && !free[i]
      modifies free, desc
      ensures free[..] == old(free[..])[i := true] && desc[..] == old(desc[..])[i := Freed()]
    {
      desc[i] := Freed();
      free[i] := true;
    }

    /** alloc3_desc: three descriptors, or none at all. */
    method Alloc3() returns (ok: bool, h: nat, mid: nat, last: nat)
      requires free.Length == desc.Length
      modifies free, desc
      ensures ok ==>
        && h < free.Length && mid < free.Length && last < free.Length && h != mid && h != last && mid != last
        && old(free[h]) && old(free[mid]) && old(free[last])
        && free[..] == old(free[..])[h := false][mid := false][last := false] && desc[..] == old(desc[..])
      ensures !ok ==> free[..] == old(free[..])
      ensures !ok ==> forall i :: 0 <= i < free.Length && !free[i] ==> desc[i] == old(desc[i])
      ensures !ok ==> exists a, b :: OnlyFree(free[..], a, b)
    {
      ok, h, mid, last := false, 0, 0, 0;
      var a := AllocDesc();
      if a == -1 {
        assert OnlyFree(free[..], 0, 0);
        return;
      }
      var b := AllocDesc();
      if b == -1 {
        FreeDesc(a);
        assert free[..] == old(free[..]);
        assert OnlyFree(free[..], a, a);
        return;
      }
      var c := AllocDesc();
      if c == -1 {
        FreeDesc(a);
        FreeDesc(b);
        assert free[..] == old(free[..]);
        assert OnlyFree(free[..], a, b);
        return;
      }
      ok, h, mid, last := true, a, b, c;
    }

    /** virtio_disk_rw up to its wait for the interrupt; it sleeps and tries again when ok is false. */
    method Submit(buf: nat, write: bool, blockno: nat) returns (ok: bool, h: nat)
      requires Valid() && buf !in s.inFlight
      modifies this, free, desc, info, status, avail
      ensures Valid()
      ensures ok ==> exists c: Chain ::
        && CanSubmit(old(s), h, c) && c.buf == buf && c.write == write && c.blockno == blockno
        && s == Submitted(old(s), h, c)
      ensures ok ==> Laid(desc[..], h, buf, write, blockno) && h < num && status[h] == 255
      ensures !ok ==> s == old(s).(desc := s.desc) && exists a, b :: OnlyFree(free[..], a, b)
    {
      var mid, last;
      ok, h, mid, last := Alloc3();
      if !ok {
        Unchanged(s, s.(desc := desc[..]));
        s := s.(desc := desc[..]);
        return;
      }
      Offer(h, mid, last, buf, write, blockno);
      DeviceView(s, h);
    }

    /** virtio_disk_rw from the three descriptors, marked used already, to the notification. */
    method Offer(h: nat, mid: nat, last: nat, buf: nat, write: bool, blockno: nat)
      requires Sized() && CanSubmit(s, h, Chain(mid, last, buf, write, blockno))
      requires Tied(s.(free := s.free[h := false][mid := false][last := false]))
      modifies this, desc, info, status, avail
      ensures Valid() && s == Submitted(old(s), h, Chain(mid, last, buf, write, blockno))
    {
      ghost var c := Chain(mid, last, buf, write, blockno);
      SubmitKeeps(s, h, c);
      Format(h, mid, last, buf, write, blockno);
      Record(h, buf);
      busy := busy + {buf};
      Announce(h, |s.availLog|);
      s := Submitted(s, h, c);
    }

    method Record(h: nat, buf: nat)
      requires h < info.Length && h < status.Length
      modifies info, status
      ensures info[..] == old(info[..])[h := For(buf)] && status[..] == old(status[..])[h := 255]
    {
      info[h] := For(buf);
      status[h] := 255;
    }

    /** A head in the available ring, then the counter. */
    method Announce(h: nat, ghost t: nat)
      requires 0 < num == avail.Length && WRAP % num == 0 && availIdx == t % WRAP
      modifies this`availIdx, avail
      ensures availIdx == (t + 1) % WRAP && avail[..] == old(avail[..])[t % num := h]
    {
      var at := Position(availIdx, t);
      avail[at] := h;
      NextCount(t);
      availIdx := (availIdx + 1) % WRAP;
    }

    method Format(h: nat, mid: nat, last: nat, buf: nat, write: bool, blockno: nat)
      requires h < desc.Length && mid < desc.Length && last < desc.Length && h != mid && h != last && mid != last
      modifies desc
      ensures var c := Chain(mid, last, buf, write, blockno);
        desc[..] == old(desc[..])[h := HeadDesc(h, c)][mid := MidDesc(c)][last := LastDesc(h)]
    {
      desc[h] := Desc(Header(h, write, blockno * 2), true, false, mid);
      desc[mid] := Desc(Payload(buf), true, !write, last);
      desc[last] := Desc(StatusOf(h), false, true, 0);
    }

    /** The device takes the next chain, if there is one, from the available ring. */
    method DeviceTake() returns (ok: bool, h: nat)
      requires Valid()
      modifies this`deviceIdx, this`s
      ensures Valid() && (ok <==> old(s).taken < |old(s).availLog|)
      ensures ok ==> h == old(s).availLog[old(s).taken] && h in s.chains && s == TakenNext(old(s))
      ensures !ok ==> s == old(s)
    {
      AvailFits(s);
      WrapEqual(s.taken, |s.availLog|);
      ok, h := deviceIdx != availIdx, 0;
      if ok {
        assert AvailOk(s, s.taken);
        TakeKeeps(s);
        var at := Position(deviceIdx, s.taken);
        h := avail[at];
        NextCount(s.taken);
        deviceIdx := (deviceIdx + 1) % WRAP;
        s := TakenNext(s);
      }
    }

    /** The device completes any chain that it holds, with any status. */
    method DeviceComplete(h: nat, code: nat)
      requires Valid() && h in s.chains && h in s.stage && s.stage[h] == Taken
      modifies this`usedTail, this`s, status, used
      ensures Valid() && h < num && s == Completed(old(s), h, code)
    {
      CompleteKeeps(s, h, code);
      status[h] := code;
      var at := Position(usedTail, |s.usedLog|);
      used[at] := h;
      NextCount(|s.usedLog|);
      usedTail := (usedTail + 1) % WRAP;
      s := Completed(s, h, code);
    }

    /**
     virtio_disk_intr: every completion not seen yet is matched, once, to the request
     that owns its head, whose buffer is no longer busy. It panics, here false, exactly
     if one of them has a status other than 0, and then at the first such one.
     */
    method Interrupt() returns (ok: bool)
      requires Valid()
      modifies this`usedIdx, this`busy, this`s
      ensures Valid() && Handled(old(s), s)
      ensures ok <==> AllSucceeded(old(s), |old(s).usedLog|)
      ensures AllSucceeded(old(s), s.seen) && if ok then s.seen == |s.usedLog| else !Succeeded(old(s), s.seen)
    {
      ghost var s0 := s;
      while true
        invariant Valid() && Handled(s0, s) && AllSucceeded(s0, s.seen)
        decreases |s.usedLog| - s.seen
      {
        UsedFits(s);
        WrapEqual(s.seen, |s.usedLog|);
        if usedIdx == usedTail { break; }
        HandleNext(s0, s);
        ok := See();
        if !ok {
          assert !Succeeded(s0, s.seen);
          return;
        }
      }
      ok := true;
    }

    /** One turn of the handler's loop. */
    method See() returns (ok: bool)
      requires Valid() && s.seen < |s.usedLog|
      modifies this`usedIdx, this`busy, this`s
      ensures Valid() && old(s).usedLog[old(s).seen] in old(s).chains && ok == Succeeded(old(s), old(s).seen)
      ensures s == if ok then SeenNext(old(s)) else old(s)
    {
      assert UsedOk(s, s.seen);
      SeeKeeps(s);
      var at := Position(usedIdx, s.seen);
      var id := used[at];
      assert ChainOk(s, id);
      if status[id] != 0 { return false; }
      busy := busy - {info[id].buf};
      NextCount(s.seen);
      usedIdx := (usedIdx + 1) % WRAP;
      s := SeenNext(s);
      ok := true;
    }

    /** The end of virtio_disk_rw, once the buffer is no longer busy: the chain is freed. */
    method Finish(h: nat)
      requires Valid() && h in s.chains && s.chains[h].buf !in busy
      modifies this`s, free, desc, info
      ensures Valid() && h < num && old(s).chains[h].mid < num && old(s).chains[h].last < num
      ensures s == Finished(old(s), h)
    {
      ghost var c := s.chains[h];
      assert ChainOk(s, h) && DescOk(s, h) && DescOk(s, c.mid) && DescOk(s, c.last);
      FinishKeeps(s, h);
      info[h] := Idle;
      FreeChain(h, h, c);
      s := Finished(s, h);
    }

    /** free_chain on a chain laid out by virtio_disk_rw. */
    method FreeChain(start: nat, ghost h: nat, ghost c: Chain)
      requires free.Length == desc.Length && start == h
      requires h < free.Length && c.mid < free.Length && c.last < free.Length
      requires h != c.mid && h != c.last && c.mid != c.last
      requires !free[h] && !free[c.mid] && !free[c.last]
      requires desc[h] == HeadDesc(h, c) && desc[c.mid] == MidDesc(c) && desc[c.last] == LastDesc(h)
      modifies free, desc
      ensures free[..] == old(free[..])[h := true][c.mid := true][c.last := true]
      ensures desc[..] == old(desc[..])[h := Freed()][c.mid := Freed()][c.last := Freed()]
    {
      var i := start;
      ghost var k := 0;
      while true
        invariant 0 <= k <= 2 && i == (if k == 0 then h else if k == 1 then c.mid else c.last)
        invariant free[..] == Partly(old(free[..]), h, c.mid, true, k)
        invariant desc[..] == Partly(old(desc[..]), h, c.mid, Freed(), k)
        decreases 2 - k
      {
        assert desc[..][i] == desc[i] && free[..][i] == free[i];
        var more, next := desc[i].more, desc[i].next;
        FreeDesc(i);
        if !more { break; }
        i := next;
        k := k + 1;
      }
    }
  }

  /** The first k of two places are set. */
  function Partly<T>(xs: seq<T>, i: nat, j: nat, x: T, k: nat): seq<T>
    requires i < |xs| && j < |xs|
  {
    if k == 0 then xs else if k == 1 then xs[i := x] else xs[i := x][j := x]
  }

  /** The request at position p of the used ring went well. */
  predicate Succeeded(s: State, p: nat) {
    p < |s.usedLog| && s.usedLog[p] < |s.status| && s.status[s.usedLog[p]] == 0
  }

  /** So did all requests not seen yet, up to a position of the used ring. */
  ghost predicate AllSucceeded(s: State, to: nat) {
    forall p: nat :: s.seen <= p < to ==> Succeeded(s, p)
  }

  /** The buffer of the chain at position p of the used ring. */
  predicate BufAt(s: State, p: nat, b: nat) {
    p < |s.usedLog| && s.usedLog[p] in s.chains && s.chains[s.usedLog[p]].buf == b
  }

  /**
   From s0 to s the handler consumed used entries. Each one released the buffer of
   its own chain, and nothing else was released.
   */
  ghost predicate Handled(s0: State, s: State) {
    && s.usedLog == s0.usedLog && s.status == s0.status && s.chains == s0.chains
    && s0.seen <= s.seen <= |s.usedLog| && s.busy <= s0.busy
    && (forall p: nat, b: nat {:trigger BufAt(s, p, b)} ::
          s0.seen <= p < s.seen && BufAt(s, p, b) ==> b in s0.busy && b !in s.busy)
    && (forall p: nat {:trigger s.usedLog[p]} :: s0.seen <= p < s.seen ==> s.usedLog[p] in s.chains)
    && (forall b: nat :: b in s0.busy && b !in s.busy ==> exists p: nat :: s0.seen <= p < s.seen && BufAt(s, p, b))
  }

  lemma HandleNext(s0: State, s: State)
    requires Inv(s) && Handled(s0, s) && s.seen < |s.usedLog|
    ensures s.usedLog[s.seen] in s.chains && Handled(s0, SeenNext(s))
  {
    assert UsedOk(s, s.seen);
    var t, h := SeenNext(s), s.usedLog[s.seen];
    assert ChainOk(s, h);
    var c := s.chains[h].buf;
    assert forall p: nat, b: nat :: BufAt(t, p, b) <==> BufAt(s, p, b);
    forall b: nat | b in s0.busy && b !in t.busy
      ensures exists p: nat :: s0.seen <= p < t.seen && BufAt(t, p, b)
    {
      if b == c {
        assert BufAt(t, s.seen, b);
      } else {
        var p: nat :| s0.seen <= p < s.seen && BufAt(s, p, b);
        assert BufAt(t, p, b);
      }
    }
  }

  predicate OnlyFree(free: seq<bool>, a: int, b: int) { forall i :: 0 <= i < |free| && free[i] ==> i == a || i == b }

  /** A failed allocation leaves the invariant: only free descriptors changed. */
  lemma Unchanged(s: State, t: State)
    requires Inv(s) && |t.desc| == |s.desc| && t == s.(desc := t.desc)
    requires forall i :: 0 <= i < |s.free| && !s.free[i] ==> t.desc[i] == s.desc[i]
    ensures Inv(t)
  {
    forall i: nat ensures DescOk(t, i) { assert DescOk(s, i); }
    forall h: nat ensures ChainOk(t, h) {
      assert ChainOk(s, h);
      if h in s.chains { assert DescOk(s, h) && DescOk(s, s.chains[h].mid) && DescOk(s, s.chains[h].last); }
    }
    forall p: nat ensures AvailOk(t, p) && UsedOk(t, p) { assert AvailOk(s, p) && UsedOk(s, p); }
    forall b: nat ensures BufOk(t, b) { assert BufOk(s, b); }
  }
}
