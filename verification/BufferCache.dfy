/**
 The buffer cache of kernel/bio.c. Each method is one section under the cache lock
 or under a buffer's sleep lock, so every interleaving of processes is a sequence
 of calls. A reference count is the references taken with bget and not given back
 with brelse, plus one if the log has pinned the buffer.
 */
module BufferCache {
  import RedoLog

  type Data = RedoLog.Block

  datatype Key = Key(dev: nat, blockno: nat)

  datatype Buf = Buf(key: Key, valid: bool, refcnt: nat, locked: bool, data: Data)

  // ---------- The list ----------

  // The buffers are 0 to n - 1 and the list head is n

  /** Position i of the cycle: the head, the buffers in order, the head again. */
  function Node(order: seq<nat>, n: nat, i: nat): nat {
    if 0 < i <= |order| then order[i - 1] else n
  }

  ghost predicate LinkedAt(next: seq<nat>, prev: seq<nat>, order: seq<nat>, n: nat, i: nat)
    requires |next| == |prev| == n + 1
  {
    && Node(order, n, i) <= n && Node(order, n, i + 1) <= n
    && next[Node(order, n, i)] == Node(order, n, i + 1) && prev[Node(order, n, i + 1)] == Node(order, n, i)
  }

  /** next and prev run through the buffers in order, and back. */
  ghost predicate Linked(next: seq<nat>, prev: seq<nat>, order: seq<nat>, n: nat) {
    && |next| == |prev| == n + 1
    && (forall i: nat {:trigger LinkedAt(next, prev, order, n, i)} ::
          i <= |order| ==> LinkedAt(next, prev, order, n, i))
    && (forall i :: 0 <= i < |order| ==> order[i] < n)
    && (forall i, j :: 0 <= i < j < |order| ==> order[i] != order[j])
  }

  ghost predicate Complete(order: seq<nat>, n: nat) { forall b: nat :: b < n ==> b in order }

  function Without(order: seq<nat>, p: nat): (r: seq<nat>)
    requires p < |order|
    ensures |r| == |order| - 1
  {
    order[..p] + order[p + 1..]
  }

  lemma FrontComplete(order: seq<nat>, p: nat, n: nat)
    requires p < |order| && Complete(order, n)
    ensures Complete([order[p]] + Without(order, p), n)
  {
    var front := [order[p]] + Without(order, p);
    forall c: nat | c < n
      ensures c in front
    {
      assert c in order;
      var q :| 0 <= q < |order| && order[q] == c;
      assert q != p ==> front[if q < p then q + 1 else q] == c;
    }
  }

  /** Taking a buffer out of the list. */
  lemma UnlinkKeeps(next: seq<nat>, prev: seq<nat>, order: seq<nat>, n: nat, p: nat)
    requires Linked(next, prev, order, n) && p < |order|
    ensures order[p] <= n && next[order[p]] <= n && prev[order[p]] <= n
    ensures
      var b := order[p];
      Linked(next[prev[b] := next[b]], prev[next[b] := prev[b]], Without(order, p), n)
  {
    var b, rest := order[p], Without(order, p);
    assert LinkedAt(next, prev, order, n, p) && LinkedAt(next, prev, order, n, p + 1);
    var next', prev' := next[prev[b] := next[b]], prev[next[b] := prev[b]];
    forall i: nat | i <= |rest|
      ensures LinkedAt(next', prev', rest, n, i)
    {
      var j := if i < p then i else if i == p then p else i + 1;
      assert LinkedAt(next, prev, order, n, j);
      assert Node(rest, n, i) == Node(order, n, if i <= p then i else i + 1);
      assert Node(rest, n, i + 1) == Node(order, n, if i + 1 <= p then i + 1 else i + 2);
    }
  }

  /** Putting a buffer at the front of the list. */
  lemma PushKeeps(next: seq<nat>, prev: seq<nat>, order: seq<nat>, n: nat, b: nat)
    requires Linked(next, prev, order, n) && b < n && b !in order
    ensures next[n] <= n
    ensures Linked(next[b := next[n]][n := b], prev[b := n][next[n] := b], [b] + order, n)
  {
    assert LinkedAt(next, prev, order, n, 0);
    var next', prev', longer := next[b := next[n]][n := b], prev[b := n][next[n] := b], [b] + order;
    forall i: nat | i <= |longer|
      ensures LinkedAt(next', prev', longer, n, i)
    {
      assert Node(longer, n, i + 1) == if i == 0 then b else Node(order, n, i);
      if i > 0 { assert LinkedAt(next, prev, order, n, i - 1); }
    }
  }

  // ---------- What the cache holds ----------

  // For the blocks of devices other than 0: cached, what the valid buffers hold;
  // pins, the blocks the log has pinned; held, the blocks whose buffers are locked.
  // refs: for each buffer, the references taken and not given back
  datatype View = View(
    bufs: seq<Buf>, disk: map<Key, Data>, cached: map<Key, Data>, pins: set<Key>, held: set<Key>, refs: seq<nat>)

  /** At most one buffer per block. */
  ghost predicate UniqueAt(v: View, b: nat, c: nat) {
    b < |v.bufs| && c < |v.bufs| && b != c && v.bufs[b].key.dev != 0 ==> v.bufs[b].key != v.bufs[c].key
  }

  ghost predicate BufOk(v: View, b: nat)
    requires |v.refs| == |v.bufs|
  {
    b < |v.bufs| ==>
      var f := v.bufs[b];
      && f.refcnt == v.refs[b] + (if f.key in v.pins then 1 else 0) && (f.locked ==> v.refs[b] > 0)
      && (f.key.dev != 0 ==>
            && (f.locked <==> f.key in v.held)
            && (f.valid <==> f.key in v.cached) && (f.valid ==> f.data == v.cached[f.key]))
  }

  predicate Has(bufs: seq<Buf>, k: Key, b: nat) { b < |bufs| && bufs[b].key == k }

  ghost predicate KeyOk(v: View, k: Key) {
    && (k in v.cached || k in v.held ==> k.dev != 0 && k in v.disk && exists b: nat :: Has(v.bufs, k, b))
    && (k in v.pins ==> k in v.cached)
  }

  ghost predicate ViewOk(v: View) {
    && |v.refs| == |v.bufs|
    && (forall b: nat, c: nat {:trigger UniqueAt(v, b, c)} :: UniqueAt(v, b, c))
    && (forall b: nat {:trigger BufOk(v, b)} :: BufOk(v, b))
    && (forall k {:trigger KeyOk(v, k)} :: KeyOk(v, k))
  }

  /** What a reader of block k gets: the buffer, or else the disk. */
  function Content(v: View, k: Key): Data
    requires k in v.disk
  {
    if k in v.cached then v.cached[k] else v.disk[k]
  }

  /** One buffer changes but keeps its block; the rest of the view follows it. */
  ghost predicate Changes(v: View, w: View, b: nat) {
    && |v.refs| == |v.bufs| == |w.bufs| == |w.refs| && b < |v.bufs|
    && w.bufs == v.bufs[b := w.bufs[b]] && w.refs == v.refs[b := w.refs[b]] && w.bufs[b].key == v.bufs[b].key
    && w.disk.Keys == v.disk.Keys
    && (forall k :: k != v.bufs[b].key ==>
          && (k in w.cached <==> k in v.cached) && (k in w.cached && k in v.cached ==> w.cached[k] == v.cached[k])
          && (k in w.pins <==> k in v.pins) && (k in w.held <==> k in v.held))
    && (v.bufs[b].key in w.pins ==> v.bufs[b].key in w.cached)
    && (v.bufs[b].key in w.cached || v.bufs[b].key in w.held ==> v.bufs[b].key.dev != 0 && v.bufs[b].key in w.disk)
  }

  lemma ChangeKeeps(v: View, w: View, b: nat)
    requires ViewOk(v) && Changes(v, w, b) && BufOk(w, b) && (v.bufs[b].key.dev == 0 ==> w.pins == v.pins)
    ensures ViewOk(w)
  {
    forall c: nat, e: nat
      ensures UniqueAt(w, c, e)
    {
      assert UniqueAt(v, c, e) && UniqueAt(v, e, c);
    }
    forall c: nat
      ensures BufOk(w, c)
    {
      assert BufOk(v, c) && UniqueAt(v, b, c);
    }
    forall k
      ensures KeyOk(w, k)
    {
      assert KeyOk(v, k);
      if k == v.bufs[b].key {
        assert Has(w.bufs, k, b);
      } else if c: nat :| Has(v.bufs, k, c) {
        assert Has(w.bufs, k, c);
      }
    }
  }

  /** An unused buffer is given to a block that has none; its old block is no longer cached. */
  function Recycled(v: View, b: nat, k: Key): View
    requires |v.refs| == |v.bufs| && b < |v.bufs|
  {
    v.(bufs := v.bufs[b := v.bufs[b].(key := k, valid := false, refcnt := 1)], cached := v.cached - {v.bufs[b].key},
       refs := v.refs[b := 1])
  }

  /** Recycling never takes a pinned or locked block, and changes no other one. */
  lemma RecycleKeeps(v: View, b: nat, k: Key)
    requires ViewOk(v) && b < |v.bufs| && v.bufs[b].refcnt == 0 && forall c: nat :: !Has(v.bufs, k, c)
    ensures ViewOk(Recycled(v, b, k)) && v.bufs[b].key !in v.pins && v.bufs[b].key !in v.held
  {
    var w, x := Recycled(v, b, k), v.bufs[b].key;
    assert BufOk(v, b) && KeyOk(v, x) && KeyOk(v, k);
    forall c: nat, e: nat
      ensures UniqueAt(w, c, e)
    {
      assert UniqueAt(v, c, e) && !Has(v.bufs, k, c) && !Has(v.bufs, k, e);
    }
    forall c: nat
      ensures BufOk(w, c)
    {
      assert BufOk(v, c) && UniqueAt(v, b, c) && UniqueAt(v, c, b);
    }
    forall l
      ensures KeyOk(w, l)
    {
      assert KeyOk(v, l);
      if c: nat :| Has(v.bufs, l, c) && c != b { assert Has(w.bufs, l, c); }
    }
  }

  class Cache {
    const n: nat                  // NBUF
    const bufs: array<Buf>
    const next: array<nat>
    const prev: array<nat>
    var disk: map<Key, Data>
    ghost var order: seq<nat>     // the buffers from the most to the least recently used
    ghost var cached: map<Key, Data>
    ghost var pins: set<Key>
    ghost var held: set<Key>
    ghost var refs: seq<nat>

    ghost function Now(): View
      reads this, bufs
    {
      View(bufs[..], disk, cached, pins, held, refs)
    }

    ghost predicate Valid()
      reads this, bufs, next, prev
    {
      && next != prev && bufs.Length == n
      && Linked(next[..], prev[..], order, n) && Complete(order, n) && ViewOk(Now())
    }

    /** Nobody waits for a lock: the references are those of the processes that have the buffers locked. */
    ghost predicate Single()
      reads this`refs, bufs
    {
      |refs| == bufs.Length && forall b: nat {:trigger SingleAt(bufs[..], refs, b)} :: SingleAt(bufs[..], refs, b)
    }

    /** Then the buffers in use are the locked and the pinned ones. */
    lemma InUseIff(b: nat)
      requires Valid() && Single() && b < n
      ensures bufs[b].refcnt == (if bufs[b].locked then 1 else 0) + (if bufs[b].key in pins then 1 else 0)
      ensures bufs[b].key.dev != 0 ==> (bufs[b].locked <==> bufs[b].key in held)
    {
      assert BufOk(Now(), b) && SingleAt(bufs[..], refs, b);
    }

    /** The buffer that a process got from bread and has not released. */
    ghost predicate Handle(r: int, k: Key)
      reads this, bufs
    {
      0 <= r < n == bufs.Length && bufs[r].key == k && k.dev != 0 && bufs[r].locked && bufs[r].valid
    }

    /** binit: all buffers start out as block 0 of device 0. */
    constructor (n: nat, disk: map<Key, Data>)
      ensures Valid() && this.n == n && this.disk == disk && cached == map[] && pins == {} && held == {}
      ensures fresh(bufs) && fresh(next) && fresh(prev) && Single()
      ensures forall b :: 0 <= b < n ==> bufs[b].key == Key(0, 0) && !bufs[b].locked
    {
      this.n, this.disk := n, disk;
      bufs := new Buf[n](_ => Buf(Key(0, 0), false, 0, false, RedoLog.Data([])));
      next, prev := new nat[n + 1](_ => n), new nat[n + 1](_ => n);
      order, cached, pins, held, refs := [], map[], {}, {}, seq(n, _ => 0);
      new;
      for b := 0 to n
        invariant Linked(next[..], prev[..], order, n) && forall c: nat :: c in order <==> c < b
        modifies next, prev, this`order
      {
        PushKeeps(next[..], prev[..], order, n, b);
        next[b] := next[n];
        prev[b] := n;
        prev[next[n]] := b;
        next[n] := b;
        order := [b] + order;
      }
      assert forall b: nat :: BufOk(Now(), b);
      assert forall b: nat, c: nat :: UniqueAt(Now(), b, c);
      assert forall k :: KeyOk(Now(), k);
    }

    /**
     bget up to its sleep lock: the buffer that caches the block, or else the unused
     buffer nearest the least recently used end; -1 where the code panics. The block
     that loses its buffer, if any, is neither pinned nor locked.
     */
    method Bget(dev: nat, blockno: nat) returns (r: int)
      requires Valid() && Key(dev, blockno) in disk
      modifies bufs, this`cached, this`refs
      ensures Valid() && -1 <= r < n
      ensures r == -1 <==> forall b: nat :: b < n ==> old(bufs[b].key) != Key(dev, blockno) && old(bufs[b].refcnt) > 0
      ensures r == -1 ==> Now() == old(Now())
      ensures r != -1 && old(bufs[r].key) == Key(dev, blockno) ==>
        && bufs[..] == old(bufs[..])[r := old(bufs[r]).(refcnt := old(bufs[r].refcnt) + 1)]
        && refs == old(refs)[r := old(refs)[r] + 1] && cached == old(cached)
      ensures r != -1 && old(bufs[r].key) != Key(dev, blockno) ==>
        && (forall b: nat :: b < n ==> old(bufs[b].key) != Key(dev, blockno))
        && Oldest(old(bufs[..]), order, r) && Now() == Recycled(old(Now()), r, Key(dev, blockno))
        && old(bufs[r].key) !in pins && old(bufs[r].key) !in held
    {
      var k := Key(dev, blockno);
      ghost var v := Now();
      r := FindKey(k);
      if r != -1 {
        assert BufOk(v, r);
        ghost var w := v.(
          bufs := v.bufs[r := v.bufs[r].(refcnt := v.bufs[r].refcnt + 1)], refs := v.refs[r := v.refs[r] + 1]);
        assert KeyOk(v, k);
        ChangeKeeps(v, w, r);
        bufs[r] := bufs[r].(refcnt := bufs[r].refcnt + 1);
        refs := refs[r := refs[r] + 1];
        assert Now() == w;
        return;
      }
      r := FindUnused();
      if r != -1 {
        RecycleKeeps(v, r, k);
        cached, refs := cached - {bufs[r].key}, refs[r := 1];
        bufs[r] := bufs[r].(key := k, valid := false, refcnt := 1);
        assert Now() == Recycled(v, r, k);
      }
    }

    /** The forward walk. */
    method FindKey(k: Key) returns (r: int)
      requires Valid()
      ensures -1 <= r < n
      ensures r == -1 ==> forall b: nat :: b < n ==> bufs[b].key != k
      ensures r != -1 ==> bufs[r].key == k
    {
      ghost var i := 0;
      assert LinkedAt(next[..], prev[..], order, n, 0);
      var b := next[n];
      while b != n
        invariant 0 <= i <= |order| && b == Node(order, n, i + 1) && b <= n
        invariant forall j :: 0 <= j < i ==> bufs[order[j]].key != k
        decreases |order| - i
      {
        if bufs[b].key == k { return b; }
        assert LinkedAt(next[..], prev[..], order, n, i + 1);
        b := next[b];
        i := i + 1;
      }
      forall c: nat | c < n
        ensures bufs[c].key != k
      {
        assert c in order;
      }
      r := -1;
    }

    /** The backward walk. */
    method FindUnused() returns (r: int)
      requires Valid()
      ensures -1 <= r < n
      ensures r == -1 ==> forall b: nat :: b < n ==> bufs[b].refcnt > 0
      ensures r != -1 ==> Oldest(bufs[..], order, r)
    {
      ghost var i := |order|;
      assert LinkedAt(next[..], prev[..], order, n, |order|);
      var b := prev[n];
      while b != n
        invariant 0 <= i <= |order| && b == Node(order, n, i) && b <= n
        invariant forall j :: i <= j < |order| ==> bufs[order[j]].refcnt > 0
        decreases i
      {
        if bufs[b].refcnt == 0 {
          assert order[i - 1] == b;
          return b;
        }
        assert LinkedAt(next[..], prev[..], order, n, i - 1);
        b := prev[b];
        i := i - 1;
      }
      forall c: nat | c < n
        ensures bufs[c].refcnt > 0
      {
        assert c in order;
      }
      r := -1;
    }

    /** acquiresleep, once the lock is free. */
    method Lock(b: nat)
      requires Valid() && b < n && !bufs[b].locked && refs[b] > 0 && bufs[b].key in disk
      modifies bufs, this`held
      ensures Valid() && bufs[..] == old(bufs[..])[b := old(bufs[b]).(locked := true)]
      ensures held == if bufs[b].key.dev != 0 then old(held) + {bufs[b].key} else old(held)
    {
      ghost var v := Now();
      assert BufOk(v, b) && KeyOk(v, bufs[b].key);
      held := if bufs[b].key.dev != 0 then held + {bufs[b].key} else held;
      bufs[b] := bufs[b].(locked := true);
      assert bufs[..] == v.bufs[b := bufs[b]];
      ChangeKeeps(v, Now(), b);
    }

    /** The rest of bread: the buffer then holds what readers of its block get. */
    method Fill(b: nat)
      requires Valid() && b < n && bufs[b].locked && bufs[b].key in disk
      modifies bufs, this`cached
      ensures Valid() && bufs[b].valid && bufs[b].key == old(bufs[b].key) && bufs[b].refcnt == old(bufs[b].refcnt)
      ensures bufs[b].locked && bufs[..] == old(bufs[..])[b := bufs[b]]
      ensures bufs[b].key.dev != 0 ==>
        && bufs[b].data == Content(old(Now()), bufs[b].key)
        && cached == old(cached)[bufs[b].key := Content(old(Now()), bufs[b].key)]
      ensures bufs[b].key.dev == 0 ==> cached == old(cached)
    {
      ghost var v := Now();
      assert BufOk(v, b) && KeyOk(v, bufs[b].key);
      if !bufs[b].valid {
        cached := if bufs[b].key.dev != 0 then cached[bufs[b].key := disk[bufs[b].key]] else cached;
        bufs[b] := bufs[b].(data := disk[bufs[b].key], valid := true);
        assert bufs[..] == v.bufs[b := bufs[b]];
        ChangeKeeps(v, Now(), b);
      } else {
        assert bufs[..] == v.bufs[b := bufs[b]];
      }
    }

    /** The code stops here when no buffer has the block. */
    ghost predicate NoneUnused()
      reads this, bufs
    {
      forall b: nat :: b < bufs.Length ==> bufs[b].refcnt > 0
    }

    ghost predicate Absent(k: Key)
      reads bufs
    {
      forall b: nat :: b < bufs.Length ==> bufs[b].key != k
    }

    /**
     bread, once the block's buffer is not locked. `gone` is the block that lost its
     buffer, neither pinned nor locked, or the block itself if none did.
     */
    method Bread(dev: nat, blockno: nat) returns (r: int, ghost gone: Key)
      requires Valid() && Key(dev, blockno) in disk && dev != 0 && Key(dev, blockno) !in held
      modifies bufs, this`cached, this`refs, this`held
      ensures Valid() && -1 <= r < n
      ensures r == -1 <==> old(NoneUnused() && Absent(Key(dev, blockno)))
      ensures r == -1 ==> Now() == old(Now())
      ensures r != -1 ==>
        var k := Key(dev, blockno);
        && Handle(r, k) && bufs[r].data == Content(old(Now()), k) && held == old(held) + {k}
        && cached == (old(cached) - {gone})[k := Content(old(Now()), k)]
        && (gone == k || (gone in old(cached) && gone !in pins && gone !in held))
        && bufs[..] == old(bufs[..])[r := bufs[r]]
        && refs == old(refs)[r := if old(bufs[r].key) == k then old(refs)[r] + 1 else 1]
      ensures LockedStay(old(bufs[..]), bufs[..], n) && (old(Single()) ==> Single())
    {
      gone := Key(dev, blockno);
      var k := Key(dev, blockno);
      ghost var v := Now();
      r := Bget(dev, blockno);
      if r != -1 {
        assert BufOk(v, r) && KeyOk(v, k);
        if v.bufs[r].key in v.cached {
          gone := v.bufs[r].key;
        }
        assert cached == v.cached - if gone == k then {} else {gone};
        LockFill(r);
        if old(Single()) {
          assert SingleAt(v.bufs, v.refs, r);
          SingleKeeps(v.bufs, v.refs, bufs[..], refs, r);
        }
      }
    }

    method LockFill(r: nat)
      requires Valid() && r < n && refs[r] > 0 && bufs[r].key.dev != 0 && bufs[r].key in disk && bufs[r].key !in held
      modifies bufs, this`cached, this`held
      ensures Valid() && Handle(r, old(bufs[r].key)) && held == old(held) + {bufs[r].key}
      ensures bufs[r].data == Content(old(Now()), bufs[r].key)
      ensures cached == old(cached)[bufs[r].key := Content(old(Now()), bufs[r].key)]
      ensures bufs[..] == old(bufs[..])[r := bufs[r]]
    {
      assert BufOk(Now(), r);
      Lock(r);
      Fill(r);
    }

    /** A change of a buffer that keeps its lock. */
    lemma SingleStays(v: View, b: nat)
      requires |v.bufs| == bufs.Length && |v.refs| == bufs.Length && b < bufs.Length
      requires refs == v.refs && bufs[..] == v.bufs[b := bufs[b]] && bufs[b].locked == v.bufs[b].locked
      ensures (forall c: nat {:trigger SingleAt(v.bufs, v.refs, c)} :: SingleAt(v.bufs, v.refs, c)) ==> Single()
    {
      if forall c: nat {:trigger SingleAt(v.bufs, v.refs, c)} :: SingleAt(v.bufs, v.refs, c) {
        assert SingleAt(v.bufs, v.refs, b);
        SingleKeeps(v.bufs, v.refs, bufs[..], refs, b);
      }
    }

    /** The holder of a buffer changes its data. */
    method Modify(b: nat, data: Data)
      requires Valid() && b < n && Handle(b, bufs[b].key)
      modifies bufs, this`cached
      ensures Valid() && cached == old(cached)[bufs[b].key := data]
      ensures bufs[..] == old(bufs[..])[b := old(bufs[b]).(data := data)] && (old(Single()) ==> Single())
    {
      ghost var v := Now();
      assert BufOk(v, b) && KeyOk(v, bufs[b].key);
      cached := cached[bufs[b].key := data];
      bufs[b] := bufs[b].(data := data);
      assert bufs[..] == v.bufs[b := bufs[b]];
      ChangeKeeps(v, Now(), b);
      SingleStays(v, b);
    }

    /** bwrite. */
    method Bwrite(b: nat)
      requires Valid() && b < n && Handle(b, bufs[b].key)
      modifies this`disk
      ensures Valid() && disk == old(disk)[bufs[b].key := bufs[b].data] && disk.Keys == old(disk).Keys
    {
      ghost var v := Now();
      assert BufOk(v, b) && KeyOk(v, bufs[b].key);
      disk := disk[bufs[b].key := bufs[b].data];
      assert bufs[..] == v.bufs[b := bufs[b]];
      ChangeKeeps(v, Now(), b);
    }

    /** releasesleep. */
    method Unlock(b: nat)
      requires Valid() && b < n && bufs[b].locked
      modifies bufs, this`held
      ensures Valid() && bufs[..] == old(bufs[..])[b := old(bufs[b]).(locked := false)]
      ensures held == old(held) - {bufs[b].key}
    {
      ghost var v := Now();
      assert BufOk(v, b) && KeyOk(v, bufs[b].key);
      held := held - {bufs[b].key};
      bufs[b] := bufs[b].(locked := false);
      assert bufs[..] == v.bufs[b := bufs[b]];
      ChangeKeeps(v, Now(), b);
    }

    /** A reference that is not the one of the process that has the lock. */
    ghost predicate Spare(b: nat)
      reads this, bufs
    {
      b < bufs.Length && b < |refs| && refs[b] > (if bufs[b].locked then 1 else 0)
    }

    /** The rest of brelse: the last reference moves the buffer to the front. */
    method GiveBack(b: nat)
      requires Valid() && b < n && Spare(b)
      modifies bufs, next, prev, this`order, this`refs
      ensures Valid() && old(bufs[b].refcnt) > 0
      ensures bufs[..] == old(bufs[..])[b := old(bufs[b]).(refcnt := old(bufs[b].refcnt) - 1)]
      ensures refs == old(refs)[b := old(refs)[b] - 1]
      ensures old(bufs[b].refcnt) > 1 ==> order == old(order)
      ensures old(bufs[b].refcnt) == 1 ==>
        exists p: nat :: p < |old(order)| && old(order)[p] == b && order == [b] + Without(old(order), p)
    {
      ghost var v := Now();
      assert BufOk(v, b) && KeyOk(v, bufs[b].key);
      refs := refs[b := refs[b] - 1];
      bufs[b] := bufs[b].(refcnt := bufs[b].refcnt - 1);
      assert bufs[..] == v.bufs[b := bufs[b]];
      ChangeKeeps(v, Now(), b);
      if bufs[b].refcnt == 0 {
        MoveToFront(b);
      }
    }

    /** brelse: whether or not its data is on the disk or logged. */
    method Brelse(b: nat)
      requires Valid() && b < n && Handle(b, bufs[b].key)
      modifies bufs, next, prev, this`order, this`refs, this`held
      ensures Valid() && held == old(held) - {old(bufs[b].key)} && old(bufs[b].refcnt) > 0 && old(refs)[b] > 0
      ensures bufs[..] == old(bufs[..])[b := old(bufs[b]).(locked := false, refcnt := old(bufs[b].refcnt) - 1)]
      ensures refs == old(refs)[b := old(refs)[b] - 1]
      ensures LockedStay(old(bufs[..]), bufs[..], b) && (old(Single()) ==> Single())
      ensures old(bufs[b].refcnt) > 1 ==> order == old(order)
      ensures old(bufs[b].refcnt) == 1 ==>
        exists p: nat :: p < |old(order)| && old(order)[p] == b && order == [b] + Without(old(order), p)
    {
      ghost var v := Now();
      assert BufOk(v, b);
      Unlock(b);
      GiveBack(b);
      if old(Single()) {
        assert SingleAt(v.bufs, v.refs, b);
        SingleKeeps(v.bufs, v.refs, bufs[..], refs, b);
      }
    }

    method MoveToFront(b: nat)
      requires Valid() && b < n
      modifies next, prev, this`order
      ensures Valid()
      ensures exists p: nat :: p < |old(order)| && old(order)[p] == b && order == [b] + Without(old(order), p)
    {
      assert b in order;
      ghost var p :| 0 <= p < |order| && order[p] == b;
      UnlinkKeeps(next[..], prev[..], order, n, p);
      var after, before := next[b], prev[b];
      prev[after] := before;
      next[before] := after;
      ghost var rest := Without(order, p);
      PushKeeps(next[..], prev[..], rest, n, b);
      next[b] := next[n];
      prev[b] := n;
      prev[next[n]] := b;
      next[n] := b;
      ghost var was := order;
      order := [b] + rest;
      FrontComplete(was, p, n);
    }

    /** One reference for the log. It pins a block once, while it has the buffer. */
    method Bpin(b: nat)
      requires Valid() && b < n && Handle(b, bufs[b].key) && bufs[b].key !in pins
      modifies bufs, this`pins
      ensures Valid() && bufs[..] == old(bufs[..])[b := old(bufs[b]).(refcnt := old(bufs[b].refcnt) + 1)]
      ensures pins == old(pins) + {bufs[b].key} && (old(Single()) ==> Single())
    {
      ghost var v := Now();
      assert BufOk(v, b) && KeyOk(v, bufs[b].key);
      pins := pins + {bufs[b].key};
      bufs[b] := bufs[b].(refcnt := bufs[b].refcnt + 1);
      assert bufs[..] == v.bufs[b := bufs[b]];
      ChangeKeeps(v, Now(), b);
      SingleStays(v, b);
    }

    method Bunpin(b: nat)
      requires Valid() && b < n && Handle(b, bufs[b].key) && bufs[b].key in pins
      modifies bufs, this`pins
      ensures Valid() && old(bufs[b].refcnt) > 0
      ensures bufs[..] == old(bufs[..])[b := old(bufs[b]).(refcnt := old(bufs[b].refcnt) - 1)]
      ensures pins == old(pins) - {bufs[b].key} && (old(Single()) ==> Single())
    {
      ghost var v := Now();
      assert BufOk(v, b) && KeyOk(v, bufs[b].key);
      pins := pins - {bufs[b].key};
      bufs[b] := bufs[b].(refcnt := bufs[b].refcnt - 1);
      assert bufs[..] == v.bufs[b := bufs[b]];
      ChangeKeeps(v, Now(), b);
      SingleStays(v, b);
    }
  }

  predicate SingleAt(bufs: seq<Buf>, refs: seq<nat>, b: nat) {
    b < |bufs| && b < |refs| ==> refs[b] == if bufs[b].locked then 1 else 0
  }

  lemma SingleKeeps(bufs: seq<Buf>, refs: seq<nat>, bufs': seq<Buf>, refs': seq<nat>, r: nat)
    requires |refs| == |bufs| && r < |bufs|
    requires forall b: nat {:trigger SingleAt(bufs, refs, b)} :: SingleAt(bufs, refs, b)
    requires |bufs'| == |bufs| && |refs'| == |refs| && bufs' == bufs[r := bufs'[r]] && refs' == refs[r := refs'[r]]
    requires SingleAt(bufs', refs', r)
    ensures forall b: nat {:trigger SingleAt(bufs', refs', b)} :: SingleAt(bufs', refs', b)
  {
    forall b: nat
      ensures SingleAt(bufs', refs', b)
    {
      assert SingleAt(bufs, refs, b);
    }
  }

  /** Every locked buffer but b is as it was. */
  ghost predicate LockedStay(bufs: seq<Buf>, bufs': seq<Buf>, b: nat) {
    |bufs'| == |bufs| && forall c: nat :: c < |bufs| && c != b && bufs[c].locked ==> bufs'[c] == bufs[c]
  }

  /** An unused buffer with no unused one after it in the list. */
  ghost predicate Oldest(bufs: seq<Buf>, order: seq<nat>, r: int) {
    exists i :: 0 <= i < |order| && order[i] == r && 0 <= r < |bufs| && bufs[r].refcnt == 0 &&
      forall j :: i < j < |order| ==> order[j] < |bufs| && bufs[order[j]].refcnt > 0
  }
}
