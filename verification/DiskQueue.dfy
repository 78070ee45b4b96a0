/**
 The disk request queue of kernel/virtio_disk.c: enqueue_disk_req and
 run_disk_queue under first-come-first-served and shortest-seek-time-first.
 Besides what the requests do to disk and memory, the module bounds how far the
 head travels while a queue is drained.
 */
module DiskQueue {

  datatype Policy = FCFS | SSTF

  type Block = seq<int>

  // One struct disk_req; `data` is the number of a block-sized buffer
  datatype Req = Req(valid: bool, blockno: int, write: bool, priority: int, data: nat)

  datatype Option<T> = None | Some(value: T)

  const ROTATIONAL_DELAY := 10
  const MAX_SCORE := 0x7fffffff
  // the largest block number for which the 32-bit score cannot overflow
  const MAX_BLOCK := 0x1ffffffe

  function Abs(x: int): nat { if x < 0 then -x else x }

  function Score(r: Req, head: int): int { Abs(r.blockno - head) * 4 + r.priority }

  predicate InRange(q: seq<Req>, head: int) {
    && 0 <= head <= MAX_BLOCK
    && forall i :: 0 <= i < |q| && q[i].valid ==> 0 <= q[i].blockno <= MAX_BLOCK && 0 <= q[i].priority <= 3
  }

  /** Slot i is the request the policy serves next. */
  predicate Best(policy: Policy, q: seq<Req>, head: int, i: nat) {
    && i < |q| && q[i].valid
    && forall j :: 0 <= j < |q| && q[j].valid ==>
         match policy
         case FCFS => i <= j
         case SSTF => Score(q[i], head) < Score(q[j], head) || (Score(q[i], head) == Score(q[j], head) && i <= j)
  }

  function Distance(a: int, b: int): nat { if a <= b then b - a else a - b }

  /** Request i goes before request j: it is nearer to the head, or as near and more urgent, or in an earlier slot. */
  predicate Sooner(q: seq<Req>, head: int, i: nat, j: nat)
    requires i < |q| && j < |q|
  {
    var d, e := Distance(head, q[i].blockno), Distance(head, q[j].blockno);
    d < e || (d == e && (q[i].priority < q[j].priority || (q[i].priority == q[j].priority && i <= j)))
  }

  /** The request to serve next, said without scores. */
  predicate Chosen(policy: Policy, q: seq<Req>, head: int, i: nat) {
    && i < |q| && q[i].valid
    && forall j: nat :: j < |q| && q[j].valid ==> if policy.FCFS? then i <= j else Sooner(q, head, i, j)
  }

  /** With priorities 0 to 3 the score orders requests in this way. */
  lemma BestIffChosen(policy: Policy, q: seq<Req>, head: int, i: nat)
    requires InRange(q, head)
    ensures Best(policy, q, head, i) <==> Chosen(policy, q, head, i)
  {
  }

  predicate Pending(q: seq<Req>) { exists i :: 0 <= i < |q| && q[i].valid }

  function Taken(q: seq<Req>, i: nat): seq<Req>
    requires i < |q|
  {
    q[i := q[i].(valid := false)]
  }

  function Waiting(q: seq<Req>): nat {
    if q == [] then 0 else (if q[0].valid then 1 else 0) + Waiting(q[1..])
  }

  lemma {:induction false} WaitingTaken(q: seq<Req>, i: nat)
    requires i < |q| && q[i].valid
    ensures Waiting(Taken(q, i)) == Waiting(q) - 1
  {
    if i == 0 {
      assert Taken(q, i)[1..] == q[1..];
    } else {
      WaitingTaken(q[1..], i - 1);
      assert Taken(q, i)[1..] == Taken(q[1..], i - 1);
    }
  }

  /** Some request is best whenever one is waiting. */
  lemma {:induction false} BestExists(policy: Policy, q: seq<Req>, head: int)
    requires Pending(q)
    ensures exists i: nat :: Best(policy, q, head, i)
  {
    var i: nat :| i < |q| && q[i].valid;
    var b := BestUpTo(policy, q, head, |q|, i);
    assert Best(policy, q, head, b);
  }

  lemma {:induction false} BestUpTo(policy: Policy, q: seq<Req>, head: int, n: nat, i: nat) returns (b: nat)
    requires n <= |q| && i < |q| && q[i].valid
    ensures b < |q| && q[b].valid && (b == i || b < n)
    ensures forall j :: 0 <= j < |q| && q[j].valid && (j < n || j == i) ==>
      match policy
      case FCFS => b <= j
      case SSTF => Score(q[b], head) < Score(q[j], head) || (Score(q[b], head) == Score(q[j], head) && b <= j)
  {
    if n == 0 {
      b := i;
    } else {
      b := BestUpTo(policy, q, head, n - 1, i);
      var k := n - 1;
      if q[k].valid {
        match policy
        case FCFS => if k < b { b := k; }
        case SSTF =>
          if Score(q[k], head) < Score(q[b], head) || (Score(q[k], head) == Score(q[b], head) && k < b) { b := k; }
      }
    }
  }

  // ---------- Draining a queue ----------

  // The requests in the order they are served, each with its slot and seek distance
  datatype Order = Nil | Serve(slot: nat, req: Req, seek: nat, rest: Order)

  ghost function Drain(policy: Policy, q: seq<Req>, head: int): Order
    decreases Waiting(q)
  {
    if !Pending(q) then Nil
    else
      BestExists(policy, q, head);
      var i: nat :| Best(policy, q, head, i);
      WaitingTaken(q, i);
      Serve(i, q[i], Abs(q[i].blockno - head), Drain(policy, Taken(q, i), q[i].blockno))
  }

  /** Each request of the order is the one to serve next, and the order ends when none waits. */
  predicate InOrder(policy: Policy, q: seq<Req>, head: int, o: Order)
    decreases o
  {
    match o
    case Nil => forall i: nat :: i < |q| ==> !q[i].valid
    case Serve(i, r, seek, rest) =>
      && Chosen(policy, q, head, i) && r == q[i] && seek == Distance(head, r.blockno)
      && InOrder(policy, Taken(q, i), r.blockno, rest)
  }

  lemma {:induction false} DrainsInOrder(policy: Policy, q: seq<Req>, head: int)
    requires InRange(q, head)
    ensures InOrder(policy, q, head, Drain(policy, q, head))
    decreases Waiting(q)
  {
    var o := Drain(policy, q, head);
    if Pending(q) {
      BestIffChosen(policy, q, head, o.slot);
      WaitingTaken(q, o.slot);
      DrainsInOrder(policy, Taken(q, o.slot), o.req.blockno);
    }
  }

  function Travel(o: Order): nat {
    match o
    case Nil => 0
    case Serve(_, _, seek, rest) => seek + Travel(rest)
  }

  function Latency(o: Order): nat {
    match o
    case Nil => 0
    case Serve(_, _, seek, rest) => seek + ROTATIONAL_DELAY + Latency(rest)
  }

  function Length(o: Order): nat {
    match o
    case Nil => 0
    case Serve(_, _, _, rest) => 1 + Length(rest)
  }

  /** How often slot i is served. */
  function Times(o: Order, i: nat): nat {
    match o
    case Nil => 0
    case Serve(j, _, _, rest) => (if i == j then 1 else 0) + Times(rest, i)
  }

  /** The head position after serving. */
  function HeadAfter(head: int, o: Order): int
    decreases o
  {
    match o
    case Nil => head
    case Serve(_, r, _, rest) => HeadAfter(r.blockno, rest)
  }

  function Writes(o: Order): nat {
    match o
    case Nil => 0
    case Serve(_, r, _, rest) => (if r.write then 1 else 0) + Writes(rest)
  }

  /** Either policy serves every waiting request exactly once and nothing else. */
  lemma {:induction false} ServesEachOnce(policy: Policy, q: seq<Req>, head: int, i: nat)
    requires i < |q|
    ensures Times(Drain(policy, q, head), i) == if q[i].valid then 1 else 0
    ensures Length(Drain(policy, q, head)) == Waiting(q)
    decreases Waiting(q)
  {
    var o := Drain(policy, q, head);
    if o.Serve? {
      WaitingTaken(q, o.slot);
      ServesEachOnce(policy, Taken(q, o.slot), q[o.slot].blockno, i);
    } else {
      NoneWaiting(q);
    }
  }

  lemma {:induction false} NoneWaiting(q: seq<Req>)
    ensures Pending(q) <==> Waiting(q) > 0
  {
    if q != [] {
      NoneWaiting(q[1..]);
      if Pending(q) && !q[0].valid {
        var i :| 0 <= i < |q| && q[i].valid;
        assert q[1..][i - 1].valid;
      }
      if Pending(q[1..]) {
        var i :| 0 <= i < |q[1..]| && q[1..][i].valid;
        assert q[i + 1].valid;
      }
    }
  }

  lemma {:induction false} LatencyIsTravel(o: Order)
    ensures Latency(o) == Travel(o) + ROTATIONAL_DELAY * Length(o)
  {
    if o.Serve? { LatencyIsTravel(o.rest); }
  }

  // ---------- The travel bound ----------

  /**
   The state of a shortest-seek drain: the head stands at an end of the interval
   [a, b] it has covered, every waiting request lies outside that interval or
   under the head, and the travel retraced so far does not exceed the gap to any
   request on the far side, or the interval itself when nothing waits there.
   */
  ghost predicate Swept(q: seq<Req>, head: int, a: int, b: int, retraced: int) {
    && a <= b && 0 <= retraced && (head == a || head == b)
    && (forall i :: 0 <= i < |q| && q[i].valid ==>
          q[i].blockno < a || b < q[i].blockno || q[i].blockno == head)
    && (head == b ==> forall i :: 0 <= i < |q| && q[i].valid && q[i].blockno < a ==> retraced <= a - q[i].blockno)
    && (head == a ==> forall i :: 0 <= i < |q| && q[i].valid && q[i].blockno > b ==> retraced <= q[i].blockno - b)
    && (retraced <= b - a || (head == b && Below(q, a)) || (head == a && Above(q, b)))
  }

  predicate Below(q: seq<Req>, a: int) { exists i :: 0 <= i < |q| && q[i].valid && q[i].blockno < a }

  predicate Above(q: seq<Req>, b: int) { exists i :: 0 <= i < |q| && q[i].valid && q[i].blockno > b }

  /** The chosen request is the nearest one; priorities 0..3 only break ties. */
  lemma BestIsNearest(q: seq<Req>, head: int, i: nat)
    requires InRange(q, head) && Best(SSTF, q, head, i)
    ensures forall j :: 0 <= j < |q| && q[j].valid ==> Abs(q[i].blockno - head) <= Abs(q[j].blockno - head)
  {
  }

  ghost predicate Nearest(q: seq<Req>, head: int, i: nat) {
    && i < |q| && q[i].valid
    && forall j :: 0 <= j < |q| && q[j].valid ==> Abs(q[i].blockno - head) <= Abs(q[j].blockno - head)
  }

  /**
   Serving away from the far side extends the interval and retraces nothing;
   crossing to the far side retraces the interval, still at most the new gap.
   */
  lemma SweepStep(q: seq<Req>, head: int, a: int, b: int, retraced: int, i: nat) returns (a': int, b': int, r': int)
    requires Swept(q, head, a, b, retraced) && Nearest(q, head, i)
    ensures Swept(Taken(q, i), q[i].blockno, a', b', r')
    ensures (b' - a') + r' == (b - a) + retraced + Abs(q[i].blockno - head)
    ensures {a', b'} <= {a, b, q[i].blockno}
  {
    var x := q[i].blockno;
    if head == b && Below(q, a) && x >= b {
      var k :| 0 <= k < |q| && q[k].valid && q[k].blockno < a;
      assert Taken(q, i)[k] == q[k];
    }
    if head == a && Above(q, b) && x <= a {
      var k :| 0 <= k < |q| && q[k].valid && q[k].blockno > b;
      assert Taken(q, i)[k] == q[k];
    }
    if head == b && x >= b { a', b', r' := a, x, retraced; }
    else if head == a && x <= a { a', b', r' := x, b, retraced; }
    else if head == b { a', b', r' := x, b, retraced + (b - a); }
    else { a', b', r' := a, x, retraced + (b - a); }
  }

  lemma {:induction false} SweepTravel(q: seq<Req>, head: int, a: int, b: int, retraced: int, lo: int, hi: int)
    requires InRange(q, head) && Swept(q, head, a, b, retraced) && lo <= a && b <= hi
    requires forall i :: 0 <= i < |q| && q[i].valid ==> lo <= q[i].blockno <= hi
    ensures (b - a) + retraced + Travel(Drain(SSTF, q, head)) <= 2 * (hi - lo)
    decreases Waiting(q)
  {
    var o := Drain(SSTF, q, head);
    if o.Serve? {
      BestIsNearest(q, head, o.slot);
      WaitingTaken(q, o.slot);
      var a', b', r' := SweepStep(q, head, a, b, retraced, o.slot);
      assert a' in {a', b'} && b' in {a', b'};
      SweepTravel(Taken(q, o.slot), o.req.blockno, a', b', r', lo, hi);
    }
  }

  /**
   Draining a queue shortest seek first moves the head at most twice the span of
   the head and the requested blocks, so the latency sum grows by at most that
   plus the rotational delay per request.
   */
  lemma TravelBound(q: seq<Req>, head: int, lo: int, hi: int)
    requires InRange(q, head) && lo <= head <= hi
    requires forall i :: 0 <= i < |q| && q[i].valid ==> lo <= q[i].blockno <= hi
    ensures Travel(Drain(SSTF, q, head)) <= 2 * (hi - lo)
    ensures Latency(Drain(SSTF, q, head)) <= 2 * (hi - lo) + ROTATIONAL_DELAY * Waiting(q)
  {
    SweepTravel(q, head, head, head, 0, lo, hi);
    LatencyIsTravel(Drain(SSTF, q, head));
    if |q| > 0 { ServesEachOnce(SSTF, q, head, 0); }
  }

  // ---------- What the served requests do ----------

  datatype Store = Store(disk: map<int, Block>, mem: map<nat, Block>)

  predicate Addressed(q: seq<Req>, s: Store) {
    forall i :: 0 <= i < |q| && q[i].valid ==> q[i].blockno in s.disk && q[i].data in s.mem
  }

  /** do_disk_write or do_disk_read. */
  function Transfer(r: Req, s: Store): Store
    requires r.blockno in s.disk && r.data in s.mem
  {
    if r.write then s.(disk := s.disk[r.blockno := s.mem[r.data]])
    else s.(mem := s.mem[r.data := s.disk[r.blockno]])
  }

  ghost function Drained(policy: Policy, q: seq<Req>, head: int, s: Store): Store
    requires Addressed(q, s)
    decreases Waiting(q)
  {
    if !Pending(q) then s
    else
      BestExists(policy, q, head);
      var i: nat :| Best(policy, q, head, i);
      WaitingTaken(q, i);
      Drained(policy, Taken(q, i), q[i].blockno, Transfer(q[i], s))
  }

  lemma DrainStep(policy: Policy, q: seq<Req>, head: int, i: nat)
    requires Best(policy, q, head, i)
    ensures Drain(policy, q, head) ==
      Serve(i, q[i], Abs(q[i].blockno - head), Drain(policy, Taken(q, i), q[i].blockno))
  {
  }

  lemma DrainedStep(policy: Policy, q: seq<Req>, head: int, s: Store, i: nat)
    requires Addressed(q, s) && Best(policy, q, head, i)
    ensures Drained(policy, q, head, s) == Drained(policy, Taken(q, i), q[i].blockno, Transfer(q[i], s))
  {
  }

  predicate AllWrites(q: seq<Req>) {
    && (forall i :: 0 <= i < |q| && q[i].valid ==> q[i].write)
    && (forall i, j :: 0 <= i < j < |q| && q[i].valid && q[j].valid ==> q[i].blockno != q[j].blockno)
  }

  predicate AllReads(q: seq<Req>) {
    && (forall i :: 0 <= i < |q| && q[i].valid ==> !q[i].write)
    && (forall i, j :: 0 <= i < j < |q| && q[i].valid && q[j].valid ==> q[i].data != q[j].data)
  }

  predicate TouchesBlock(q: seq<Req>, b: int) { exists i :: 0 <= i < |q| && q[i].valid && q[i].blockno == b }

  predicate TouchesBuffer(q: seq<Req>, a: nat) { exists i :: 0 <= i < |q| && q[i].valid && q[i].data == a }

  /** Writes to distinct blocks all land, in any order, and nothing else changes. */
  lemma {:induction false} WritesLand(policy: Policy, q: seq<Req>, head: int, s: Store)
    requires Addressed(q, s) && AllWrites(q)
    ensures
      var t := Drained(policy, q, head, s);
      && t.mem == s.mem && t.disk.Keys == s.disk.Keys
      && (forall i :: 0 <= i < |q| && q[i].valid ==> t.disk[q[i].blockno] == s.mem[q[i].data])
      && (forall b :: b in s.disk && !TouchesBlock(q, b) ==> t.disk[b] == s.disk[b])
    decreases Waiting(q)
  {
    if Pending(q) {
      BestExists(policy, q, head);
      var i: nat :| Best(policy, q, head, i);
      DrainedStep(policy, q, head, s, i);
      WaitingTaken(q, i);
      var r, u := Taken(q, i), Transfer(q[i], s);
      WritesLand(policy, r, q[i].blockno, u);
      var t := Drained(policy, r, q[i].blockno, u);
      assert !TouchesBlock(r, q[i].blockno);
      forall k | 0 <= k < |q| && q[k].valid
        ensures t.disk[q[k].blockno] == s.mem[q[k].data]
      {
        if k != i { assert r[k] == q[k]; }
      }
      forall b | b in s.disk && !TouchesBlock(q, b)
        ensures t.disk[b] == s.disk[b]
      {
        assert b != q[i].blockno && !TouchesBlock(r, b);
      }
    }
  }

  /** Reads into distinct buffers all arrive, in any order, and nothing else changes. */
  lemma {:induction false} ReadsArrive(policy: Policy, q: seq<Req>, head: int, s: Store)
    requires Addressed(q, s) && AllReads(q)
    ensures
      var t := Drained(policy, q, head, s);
      && t.disk == s.disk && t.mem.Keys == s.mem.Keys
      && (forall i :: 0 <= i < |q| && q[i].valid ==> t.mem[q[i].data] == s.disk[q[i].blockno])
      && (forall a :: a in s.mem && !TouchesBuffer(q, a) ==> t.mem[a] == s.mem[a])
    decreases Waiting(q)
  {
    if Pending(q) {
      BestExists(policy, q, head);
      var i: nat :| Best(policy, q, head, i);
      DrainedStep(policy, q, head, s, i);
      WaitingTaken(q, i);
      var r, u := Taken(q, i), Transfer(q[i], s);
      ReadsArrive(policy, r, q[i].blockno, u);
      var t := Drained(policy, r, q[i].blockno, u);
      assert !TouchesBuffer(r, q[i].data);
      forall k | 0 <= k < |q| && q[k].valid
        ensures t.mem[q[k].data] == s.disk[q[k].blockno]
      {
        if k != i { assert r[k] == q[k]; }
      }
      forall a | a in s.mem && !TouchesBuffer(q, a)
        ensures t.mem[a] == s.mem[a]
      {
        assert a != q[i].data && !TouchesBuffer(r, a);
      }
    }
  }

  predicate WritesBlock(q: seq<Req>, b: int) {
    exists i :: 0 <= i < |q| && q[i].valid && q[i].write && q[i].blockno == b
  }

  predicate ReadsBuffer(q: seq<Req>, a: nat) { exists i :: 0 <= i < |q| && q[i].valid && !q[i].write && q[i].data == a }

  /** Whatever is queued, only blocks written and buffers read into can change. */
  lemma TakenFrame(q: seq<Req>, s: Store, i: nat)
    requires Addressed(q, s) && i < |q| && q[i].valid
    ensures
      var r, u := Taken(q, i), Transfer(q[i], s);
      && (forall b :: b in s.disk && !WritesBlock(q, b) ==> !WritesBlock(r, b) && b in u.disk && u.disk[b] == s.disk[b])
      && (forall a :: a in s.mem && !ReadsBuffer(q, a) ==> !ReadsBuffer(r, a) && a in u.mem && u.mem[a] == s.mem[a])
  {
    var r, u := Taken(q, i), Transfer(q[i], s);
    forall b | b in s.disk && !WritesBlock(q, b)
      ensures !WritesBlock(r, b) && u.disk[b] == s.disk[b]
    {
    }
    forall a | a in s.mem && !ReadsBuffer(q, a)
      ensures !ReadsBuffer(r, a) && u.mem[a] == s.mem[a]
    {
    }
  }

  lemma {:induction false} DrainFrame(policy: Policy, q: seq<Req>, head: int, s: Store)
    requires Addressed(q, s)
    ensures
      var t := Drained(policy, q, head, s);
      && t.disk.Keys == s.disk.Keys && t.mem.Keys == s.mem.Keys
      && (forall b :: b in s.disk && !WritesBlock(q, b) ==> t.disk[b] == s.disk[b])
      && (forall a :: a in s.mem && !ReadsBuffer(q, a) ==> t.mem[a] == s.mem[a])
    decreases Waiting(q)
  {
    if Pending(q) {
      BestExists(policy, q, head);
      var i: nat :| Best(policy, q, head, i);
      DrainedStep(policy, q, head, s, i);
      WaitingTaken(q, i);
      var r, u := Taken(q, i), Transfer(q[i], s);
      DrainFrame(policy, r, q[i].blockno, u);
      TakenFrame(q, s, i);
    }
  }

  /** The queue holds exactly these requests, in slots 0, 1, 2, ... */
  predicate FilledWith(q: seq<Req>, reqs: seq<Req>) {
    && |reqs| <= |q|
    && (forall i :: 0 <= i < |reqs| ==> q[i] == reqs[i] && q[i].valid)
    && (forall i :: |reqs| <= i < |q| ==> !q[i].valid)
  }

  // ---------- The code ----------

  class Disk {
    const queue: array<Req>   // req_queue
    var policy: Policy        // disk_policy
    var head: int             // disk_head_pos
    var readCount: nat        // stat_reads
    var writeCount: nat       // stat_writes
    var latencySum: nat       // stat_latency_sum
    var requests: nat         // stat_req_count
    var store: Store

    constructor (size: nat, store: Store)
      ensures fresh(queue) && queue.Length == size && !Pending(queue[..])
      ensures policy == FCFS && head == 0 && readCount == writeCount == latencySum == requests == 0
      ensures this.store == store
    {
      queue := new Req[size](_ => Req(false, 0, false, 0, 0));
      policy, head, readCount, writeCount, latencySum, requests := FCFS, 0, 0, 0, 0, 0;
      this.store := store;
    }

    /** A request goes to the first free slot; with no free slot it is dropped. */
    method Enqueue(blockno: int, write: bool, data: nat, priority: int)
      modifies queue
      ensures var q := old(queue[..]);
        if exists i :: 0 <= i < |q| && !q[i].valid then
          exists i :: 0 <= i < |q| && !q[i].valid && (forall j :: 0 <= j < i ==> q[j].valid) &&
            queue[..] == q[i := Req(true, blockno, write, priority, data)]
        else queue[..] == q
    {
      ghost var q := queue[..];
      for i := 0 to queue.Length
        invariant queue[..] == q
        invariant forall j :: 0 <= j < i ==> q[j].valid
      {
        if !queue[i].valid {
          queue[i] := Req(true, blockno, write, priority, data);
          assert queue[..] == q[i := Req(true, blockno, write, priority, data)];
          return;
        }
      }
    }

    ghost predicate Holds(reqs: seq<Req>)
      reads queue
    {
      FilledWith(queue[..], reqs)
    }

    /** Enqueue on a queue filled from the front, with room left. */
    method Append(blockno: int, write: bool, data: nat, priority: int, ghost reqs: seq<Req>)
      requires Holds(reqs) && |reqs| < queue.Length
      modifies queue
      ensures Holds(reqs + [Req(true, blockno, write, priority, data)])
    {
      assert !queue[..][|reqs|].valid;
      Enqueue(blockno, write, data, priority);
    }

    /** The scan of run_disk_queue; -1 when no request is found. */
    method Select() returns (best: int)
      requires InRange(queue[..], head)
      ensures best == -1 <==> !Pending(queue[..])
      ensures best != -1 ==> best >= 0 && Best(policy, queue[..], head, best) && Chosen(policy, queue[..], head, best)
    {
      ghost var q := queue[..];
      best := -1;
      match policy
      case FCFS =>
        for i := 0 to queue.Length
          invariant forall j :: 0 <= j < i ==> !q[j].valid
        {
          if queue[i].valid {
            BestIffChosen(policy, q, head, i);
            return i;
          }
        }
      case SSTF =>
        var bestScore := MAX_SCORE;
        for i := 0 to queue.Length
          invariant best == -1 ==> bestScore == MAX_SCORE && forall j :: 0 <= j < i ==> !q[j].valid
          invariant best != -1 ==> 0 <= best < i && q[best].valid && bestScore == Score(q[best], head)
          invariant best != -1 ==> forall j :: 0 <= j < i && q[j].valid ==>
            bestScore < Score(q[j], head) || (bestScore == Score(q[j], head) && best <= j)
        {
          if !queue[i].valid { continue; }
          var dist := queue[i].blockno - head;
          if dist < 0 { dist := -dist; }
          var score := dist * 4 + queue[i].priority;
          assert q[i] == queue[i] && score == Score(q[i], head);
          if score < bestScore {
            bestScore := score;
            best := i;
          }
        }
        if best != -1 { BestIffChosen(policy, q, head, best); }
    }

    /** Taking slot i off the queue, its statistics, the seek and the transfer. */
    method ServeOne(i: nat)
      requires i < queue.Length && queue[i].valid && Addressed(queue[..], store)
      modifies this, queue
      ensures policy == old(policy) && queue[..] == Taken(old(queue[..]), i)
      ensures
        var r := old(queue[i]);
        && head == r.blockno && store == Transfer(r, old(store))
        && latencySum == old(latencySum) + Abs(r.blockno - old(head)) + ROTATIONAL_DELAY
        && requests == old(requests) + 1
        && writeCount == old(writeCount) + (if r.write then 1 else 0)
        && readCount == old(readCount) + (if r.write then 0 else 1)
    {
      var r := queue[i];
      queue[i] := r.(valid := false);
      if r.write { writeCount := writeCount + 1; } else { readCount := readCount + 1; }
      var dist := r.blockno - head;
      if dist < 0 { dist := -dist; }
      latencySum := latencySum + dist + ROTATIONAL_DELAY;
      requests := requests + 1;
      head := r.blockno;
      store := Transfer(r, store);
    }

    /** run_disk_queue: serve until the queue is empty. */
    method RunQueue()
      requires InRange(queue[..], head) && Addressed(queue[..], store)
      modifies this, queue
      ensures !Pending(queue[..]) && policy == old(policy) && 0 <= head <= MAX_BLOCK
      ensures
        var o := old(Drain(policy, queue[..], head));
        && latencySum == old(latencySum) + Latency(o)
        && requests == old(requests) + Length(o)
        && writeCount == old(writeCount) + Writes(o)
        && readCount + writeCount == old(readCount) + old(writeCount) + Length(o)
        && head == HeadAfter(old(head), o)
      ensures store == old(Drained(policy, queue[..], head, store))
    {
      ghost var o0, s0 := Drain(policy, queue[..], head), Drained(policy, queue[..], head, store);
      while true
        invariant policy == old(policy) && InRange(queue[..], head) && Addressed(queue[..], store)
        invariant
          var o := Drain(policy, queue[..], head);
          && latencySum + Latency(o) == old(latencySum) + Latency(o0)
          && requests + Length(o) == old(requests) + Length(o0)
          && writeCount + Writes(o) == old(writeCount) + Writes(o0)
          && readCount + writeCount + Length(o) == old(readCount) + old(writeCount) + Length(o0)
          && HeadAfter(head, o) == HeadAfter(old(head), o0)
        invariant Drained(policy, queue[..], head, store) == s0
        decreases Waiting(queue[..])
      {
        var best := Select();
        if best == -1 { break; }
        ghost var q := queue[..];
        DrainStep(policy, q, head, best);
        DrainedStep(policy, q, head, store, best);
        WaitingTaken(q, best);
        ServeOne(best);
      }
    }
  }
}
