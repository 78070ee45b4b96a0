/**
 How the buffer cache of module BufferCache and the states of the machine in module
 RedoLog match: for every block of the log's device, the disk, the valid buffers,
 the pins and the locks agree. `busy` are the blocks that the log itself has locked
 in the middle of a step; their buffers hold what the machine would read.
 */
module LogBuffers {
  import opened RedoLog
  import C = BufferCache

  ghost predicate MatchAt(v: C.View, dev: nat, s: State, busy: set<nat>, b: nat) {
    var k := C.Key(dev, b);
    && (b < |s.disk| ==> k in v.disk && v.disk[k] == s.disk[b])
    && (b in busy ==> b < |s.disk| && b !in s.holder && k in v.cached && v.cached[k] == Bread(s, b))
    && (b !in busy ==>
          (b in s.cache <==> k in v.cached) && (b in s.cache && k in v.cached ==> v.cached[k] == s.cache[b]))
    && (b in s.pins <==> k in v.pins)
    && (b in s.holder || b in busy <==> k in v.held)
  }

  ghost predicate Matches(v: C.View, dev: nat, s: State, busy: set<nat>) {
    forall b: nat {:trigger MatchAt(v, dev, s, busy, b)} :: MatchAt(v, dev, s, busy, b)
  }

  predicate SameLog(s: State, t: State) {
    t == s.(cache := t.cache, dirty := t.dirty)
  }

  /** The machine's side of a bread: the block that lost its buffer is evicted. */
  function AfterBread(dev: nat, s: State, b: nat, gone: C.Key): State {
    if gone.dev == dev && gone.blockno != b then Evicted(s, gone.blockno) else s
  }

  /** bread is Evict or nothing, followed by the lock: recycling takes what CanEvict allows. */
  lemma BreadMatches(v: C.View, w: C.View, dev: nat, s: State, busy: set<nat>, b: nat, gone: C.Key)
    requires Matches(v, dev, s, busy) && b < |s.disk| && b !in s.holder && b !in busy && C.Key(dev, b) in v.disk
    requires w.disk == v.disk && w.pins == v.pins && w.held == v.held + {C.Key(dev, b)}
    requires w.cached == (v.cached - {gone})[C.Key(dev, b) := C.Content(v, C.Key(dev, b))]
    requires gone == C.Key(dev, b) || (gone in v.cached && gone !in v.pins && gone !in v.held)
    ensures Matches(w, dev, AfterBread(dev, s, b, gone), busy + {b})
    ensures C.Content(v, C.Key(dev, b)) == Bread(AfterBread(dev, s, b, gone), b)
    ensures gone.dev == dev && gone.blockno != b ==> CanEvict(s, gone.blockno)
  {
    var t := AfterBread(dev, s, b, gone);
    assert MatchAt(v, dev, s, busy, b) && MatchAt(v, dev, s, busy, gone.blockno);
    forall c: nat
      ensures MatchAt(w, dev, t, busy + {b}, c)
    {
      assert MatchAt(v, dev, s, busy, c);
    }
  }

  /** A change of view and state that concerns block b only. */
  ghost predicate Elsewhere(v: C.View, w: C.View, dev: nat, s: State, t: State, b: nat) {
    && |t.disk| == |s.disk| && t.disk == (if b < |s.disk| then s.disk[b := t.disk[b]] else s.disk)
    && (forall c :: c != b ==>
          && (c in t.cache <==> c in s.cache) && (c in t.cache && c in s.cache ==> t.cache[c] == s.cache[c])
          && (c in t.pins <==> c in s.pins) && (c in t.holder <==> c in s.holder))
    && (forall k :: k != C.Key(dev, b) ==>
          && (k in w.disk <==> k in v.disk) && (k in w.disk && k in v.disk ==> w.disk[k] == v.disk[k])
          && (k in w.cached <==> k in v.cached) && (k in w.cached && k in v.cached ==> w.cached[k] == v.cached[k])
          && (k in w.pins <==> k in v.pins) && (k in w.held <==> k in v.held))
  }

  lemma OneMatches(
      v: C.View, w: C.View, dev: nat, s: State, t: State, busy: set<nat>, busy': set<nat>, b: nat)
    requires Matches(v, dev, s, busy) && Elsewhere(v, w, dev, s, t, b) && busy' + {b} == busy + {b}
    requires MatchAt(w, dev, t, busy', b)
    ensures Matches(w, dev, t, busy')
  {
    forall c: nat
      ensures MatchAt(w, dev, t, busy', c)
    {
      assert MatchAt(v, dev, s, busy, c);
      assert c != b ==> (c in busy' + {b} <==> c in busy + {b});
    }
  }

  /** Changing a busy buffer and writing it is the machine's atomic block write. */
  lemma StoreMatches(v: C.View, w: C.View, dev: nat, s: State, busy: set<nat>, b: nat, x: Block)
    requires Matches(v, dev, s, busy) && b in busy && b < |s.disk|
    requires w.pins == v.pins && w.held == v.held
    requires w.cached == v.cached[C.Key(dev, b) := x] && w.disk == v.disk[C.Key(dev, b) := x]
    ensures Matches(w, dev, Store(s, b, x), busy)
  {
    assert MatchAt(v, dev, s, busy, b);
    OneMatches(v, w, dev, s, Store(s, b, x), busy, busy, b);
  }

  lemma LoadMatches(v: C.View, dev: nat, s: State, busy: set<nat>, b: nat)
    requires Matches(v, dev, s, busy) && b in busy && b < |s.disk|
    ensures Matches(v, dev, Loaded(s, b), busy)
  {
    assert MatchAt(v, dev, s, busy, b);
    OneMatches(v, v, dev, s, Loaded(s, b), busy, busy, b);
  }

  lemma UnpinMatches(v: C.View, w: C.View, dev: nat, s: State, busy: set<nat>, b: nat)
    requires Matches(v, dev, s, busy) && w == v.(bufs := w.bufs, refs := w.refs, pins := v.pins - {C.Key(dev, b)})
    ensures Matches(w, dev, s.(pins := s.pins - {b}), busy)
  {
    assert MatchAt(v, dev, s, busy, b);
    OneMatches(v, w, dev, s, s.(pins := s.pins - {b}), busy, busy, b);
  }

  lemma PinMatches(v: C.View, w: C.View, dev: nat, s: State, busy: set<nat>, b: nat)
    requires Matches(v, dev, s, busy) && w == v.(bufs := w.bufs, refs := w.refs, pins := v.pins + {C.Key(dev, b)})
    ensures Matches(w, dev, s.(pins := s.pins + {b}), busy)
  {
    assert MatchAt(v, dev, s, busy, b);
    OneMatches(v, w, dev, s, s.(pins := s.pins + {b}), busy, busy, b);
  }

  /** The log gives a busy buffer back. */
  lemma DropMatches(v: C.View, w: C.View, dev: nat, s: State, busy: set<nat>, b: nat)
    requires Matches(v, dev, s, busy) && b in busy && b in s.cache
    requires w == v.(bufs := w.bufs, refs := w.refs, held := v.held - {C.Key(dev, b)})
    ensures Matches(w, dev, s, busy - {b})
  {
    assert MatchAt(v, dev, s, busy, b);
    OneMatches(v, w, dev, s, s, busy, busy - {b}, b);
  }

  /** The calling process keeps the buffer it has just read. */
  lemma AcquireMatches(v: C.View, dev: nat, s: State, b: nat, p: nat)
    requires Matches(v, dev, s, {b}) && b < |s.disk|
    ensures Matches(v, dev, Acquired(s, p, b), {})
  {
    assert MatchAt(v, dev, s, {b}, b);
    OneMatches(v, v, dev, s, Acquired(s, p, b), {b}, {}, b);
  }

  lemma ModifyMatches(v: C.View, w: C.View, dev: nat, s: State, b: nat, x: Block)
    requires Matches(v, dev, s, {}) && w == v.(bufs := w.bufs, cached := v.cached[C.Key(dev, b) := x])
    ensures Matches(w, dev, Modified(s, b, x), {})
  {
    assert MatchAt(v, dev, s, {}, b);
    OneMatches(v, w, dev, s, Modified(s, b, x), {}, {}, b);
  }

  lemma ReleaseMatches(v: C.View, w: C.View, dev: nat, s: State, b: nat)
    requires Matches(v, dev, s, {})
    requires w == v.(bufs := w.bufs, refs := w.refs, held := v.held - {C.Key(dev, b)})
    ensures Matches(w, dev, Released(s, b), {})
  {
    assert MatchAt(v, dev, s, {}, b);
    OneMatches(v, w, dev, s, Released(s, b), {}, {}, b);
  }

  /** A state that differs in none of disk, cache, pins and locks. */
  lemma SameMatches(v: C.View, dev: nat, s: State, t: State, busy: set<nat>)
    requires Matches(v, dev, s, busy)
    requires t.disk == s.disk && t.cache == s.cache && t.pins == s.pins && t.holder == s.holder
    ensures Matches(v, dev, t, busy)
  {
    forall b: nat
      ensures MatchAt(v, dev, t, busy, b)
    {
      assert MatchAt(v, dev, s, busy, b);
    }
  }
}
