/**
 The user-level allocator of user/umalloc.c: a circular free list sorted by
 address, on a heap measured in Header-sized units.
 */
module Malloc {
  // The header fields s.ptr and s.size, by the header's address
  datatype Arena = Arena(ptr: map<nat, nat>, size: map<nat, nat>)

  // base: address of the static header; free and live: the headers of the free
  // and the allocated blocks; owner: for every unit obtained from sbrk the
  // header of the block it belongs to
  datatype Layout = Layout(base: nat, free: set<nat>, live: set<nat>, owner: map<nat, nat>) {
    function Nodes(): set<nat> { {base} + free }
    function Heads(): set<nat> { free + live }
  }

  /** x points to the next element in address order, or to the base if it is the last. */
  ghost predicate Step(ptr: map<nat, nat>, nodes: set<nat>, base: nat, x: nat) {
    && x in ptr && ptr[x] in nodes && (x < ptr[x] || ptr[x] == base)
    && forall z :: z in nodes ==> z <= x || x < ptr[x] <= z
  }

  /** The free list is one cycle, sorted by address, through the base and all free blocks. */
  ghost predicate Ring(ptr: map<nat, nat>, nodes: set<nat>, base: nat) {
    && base in nodes && (forall z :: z in nodes ==> base <= z)
    && forall x {:trigger Step(ptr, nodes, base, x)} :: x in nodes ==> Step(ptr, nodes, base, x)
  }

  /** Block h has a positive size and owns every unit it spans. */
  ghost predicate Owns(size: map<nat, nat>, owner: map<nat, nat>, h: nat) {
    && h in size && size[h] > 0
    && forall u :: h <= u < h + size[h] ==> u in owner && owner[u] == h
  }

  /** Every unit belongs to exactly one block, the one that spans it. */
  ghost predicate Partition(size: map<nat, nat>, heads: set<nat>, owner: map<nat, nat>) {
    && (forall h {:trigger Owns(size, owner, h)} :: h in heads ==> Owns(size, owner, h))
    && (forall u :: u in owner ==>
          owner[u] in heads && owner[u] in size && owner[u] <= u < owner[u] + size[owner[u]])
  }

  ghost predicate Heap(a: Arena, l: Layout) {
    && Ring(a.ptr, l.Nodes(), l.base) && Partition(a.size, l.Heads(), l.owner)
    && l.base in a.size && a.size[l.base] == 0
    && l.free !! l.live && (forall h :: h in l.Heads() ==> l.base < h)
  }

  /** Block x does not end where its list successor starts. */
  ghost predicate Gap(a: Arena, base: nat, x: nat) {
    x in a.ptr && x in a.size && (a.ptr[x] == base || x + a.size[x] < a.ptr[x])
  }

  /** No two free blocks are adjacent. */
  ghost predicate Coalesced(a: Arena, l: Layout) {
    forall x {:trigger Gap(a, l.base, x)} :: x in l.Nodes() ==> Gap(a, l.base, x)
  }

  /** Distinct blocks never overlap. */
  lemma Disjoint(size: map<nat, nat>, heads: set<nat>, owner: map<nat, nat>, h: nat, k: nat)
    requires Partition(size, heads, owner) && h in heads && k in heads && h < k
    ensures h in size && h + size[h] <= k
  {
    assert Owns(size, owner, h) && Owns(size, owner, k);
    assert owner[k] == k;
  }

  // ---------- free ----------

  /** bp lies between list element p and its successor: where free()'s search stops. */
  ghost predicate Slot(ptr: map<nat, nat>, base: nat, p: nat, bp: nat) {
    p in ptr && p < bp && (ptr[p] == base || bp < ptr[p])
  }

  lemma InsertRing(ptr: map<nat, nat>, nodes: set<nat>, base: nat, p: nat, bp: nat)
    requires Ring(ptr, nodes, base) && p in nodes && Slot(ptr, base, p, bp)
    ensures Ring(ptr[bp := ptr[p]][p := bp], nodes + {bp}, base)
  {
    var ptr', nodes' := ptr[bp := ptr[p]][p := bp], nodes + {bp};
    assert Step(ptr, nodes, base, p);
    forall x | x in nodes'
      ensures Step(ptr', nodes', base, x)
    {
      if x != bp { assert Step(ptr, nodes, base, x); }
    }
  }

  lemma RemoveRing(ptr: map<nat, nat>, nodes: set<nat>, base: nat, p: nat, q: nat)
    requires Ring(ptr, nodes, base) && p in nodes && p in ptr && ptr[p] == q && q != base
    ensures q in nodes && q in ptr && Ring(ptr[p := ptr[q]], nodes - {q}, base)
  {
    assert Step(ptr, nodes, base, p) && Step(ptr, nodes, base, q);
    var ptr', nodes' := ptr[p := ptr[q]], nodes - {q};
    forall x | x in nodes'
      ensures Step(ptr', nodes', base, x)
    {
      assert Step(ptr, nodes, base, x);
    }
  }

  // free() in two stages: the block joins the list, then it is merged with its
  // neighbours where they touch

  function Linked(a: Arena, p: nat, bp: nat): Arena
    requires p in a.ptr
  {
    a.(ptr := a.ptr[bp := a.ptr[p]][p := bp])
  }

  function Freed(l: Layout, bp: nat): Layout {
    l.(free := l.free + {bp}, live := l.live - {bp})
  }

  lemma InsertKeeps(a: Arena, l: Layout, p: nat, bp: nat)
    requires Heap(a, l) && bp in l.live && p in l.Nodes() && Slot(a.ptr, l.base, p, bp)
    ensures Heap(Linked(a, p, bp), Freed(l, bp))
  {
    InsertRing(a.ptr, l.Nodes(), l.base, p, bp);
    assert Freed(l, bp).Nodes() == l.Nodes() + {bp};
    assert Freed(l, bp).Heads() == l.Heads();
  }

  /** Block p absorbs its list successor q, which starts where p ends. */
  function Merged(a: Arena, p: nat, q: nat): Arena
    requires p in a.size && q in a.size && q in a.ptr
  {
    Arena(a.ptr[p := a.ptr[q]], a.size[p := a.size[p] + a.size[q]])
  }

  function Absorbed(l: Layout, p: nat, q: nat): Layout {
    l.(free := l.free - {q}, owner := Moved(l.owner, 0, q, p))
  }

  /** The units of block p from address lo on pass to block q. */
  function Moved(owner: map<nat, nat>, lo: nat, p: nat, q: nat): (r: map<nat, nat>)
    ensures r.Keys == owner.Keys
  {
    map u | u in owner :: if owner[u] == p && lo <= u then q else owner[u]
  }

  lemma MergePartition(size: map<nat, nat>, heads: set<nat>, owner: map<nat, nat>, p: nat, q: nat)
    requires Partition(size, heads, owner) && p in heads && q in heads && p in size && p + size[p] == q
    ensures q in size
    ensures Partition(size[p := size[p] + size[q]], heads - {q}, Moved(owner, 0, q, p))
  {
    assert Owns(size, owner, p) && Owns(size, owner, q);
    var size', owner' := size[p := size[p] + size[q]], Moved(owner, 0, q, p);
    forall h | h in heads - {q}
      ensures Owns(size', owner', h)
    {
      assert Owns(size, owner, h);
    }
  }

  lemma MergeKeeps(a: Arena, l: Layout, p: nat, q: nat)
    requires Heap(a, l) && p in l.free && p in a.ptr && a.ptr[p] == q && q != l.base
    requires p in a.size && p + a.size[p] == q
    ensures q in l.free && q in a.ptr && q in a.size && Heap(Merged(a, p, q), Absorbed(l, p, q))
  {
    RemoveRing(a.ptr, l.Nodes(), l.base, p, q);
    MergePartition(a.size, l.Heads(), l.owner, p, q);
    var m := Absorbed(l, p, q);
    assert m.Nodes() == l.Nodes() - {q} && m.Heads() == l.Heads() - {q};
  }

  /** The arena after free(bp) with p found by the search. */
  function Returned(a: Arena, base: nat, p: nat, bp: nat): Arena
    requires p in a.ptr && p in a.size && bp in a.size
  {
    var q := a.ptr[p];
    var a1 := Linked(a, p, bp);
    var a2 := if q != base && q in a1.ptr && q in a1.size && bp + a1.size[bp] == q then Merged(a1, bp, q) else a1;
    if p + a2.size[p] == bp then Merged(a2, p, bp) else a2
  }

  function ReturnedLayout(a: Arena, l: Layout, p: nat, bp: nat): Layout
    requires p in a.ptr && p in a.size && bp in a.size
  {
    var q := a.ptr[p];
    var l1 := Freed(l, bp);
    var l2 := if q != l.base && bp + a.size[bp] == q then Absorbed(l1, bp, q) else l1;
    if p + a.size[p] == bp then Absorbed(l2, p, bp) else l2
  }

  /** All blocks but possibly bp and its predecessor p keep their distance. */
  ghost predicate GapsExcept(a: Arena, l: Layout, except: set<nat>) {
    forall x {:trigger Gap(a, l.base, x)} :: x in l.Nodes() && x !in except ==> Gap(a, l.base, x)
  }

  lemma InsertGaps(a: Arena, l: Layout, p: nat, bp: nat)
    requires Heap(a, l) && Coalesced(a, l) && bp in l.live && p in l.Nodes() && Slot(a.ptr, l.base, p, bp)
    ensures GapsExcept(Linked(a, p, bp), Freed(l, bp), {p, bp})
  {
    var b, m := Linked(a, p, bp), Freed(l, bp);
    forall x | x in m.Nodes() && x !in {p, bp}
      ensures Gap(b, l.base, x)
    {
      assert Gap(a, l.base, x);
    }
  }

  lemma MergeGaps(a: Arena, l: Layout, p: nat, q: nat, except: set<nat>)
    requires Heap(a, l) && p in l.free && p in a.ptr && a.ptr[p] == q && q != l.base && q in a.ptr && q in a.size
    requires p in a.size && p + a.size[p] == q && GapsExcept(a, l, except) && q !in except
    ensures GapsExcept(Merged(a, p, q), Absorbed(l, p, q), except - {p})
  {
    var b, m := Merged(a, p, q), Absorbed(l, p, q);
    assert Step(a.ptr, l.Nodes(), l.base, p) && Gap(a, l.base, q);
    forall x | x in m.Nodes() && x !in except - {p}
      ensures Gap(b, l.base, x)
    {
      if x != p { assert Gap(a, l.base, x); }
    }
  }

  /** First merge of free(): bp with the block above it. */
  lemma MergeAbove(a: Arena, l: Layout, p: nat, bp: nat, q: nat)
    requires Heap(a, l) && GapsExcept(a, l, {p, bp}) && bp in l.free && bp in a.ptr && a.ptr[bp] == q && p < bp
    requires bp in a.size
    ensures q != l.base ==> q in l.free && q in a.ptr && q in a.size
    ensures
      var touch := q != l.base && bp + a.size[bp] == q;
      var b, m := if touch then Merged(a, bp, q) else a, if touch then Absorbed(l, bp, q) else l;
      Heap(b, m) && GapsExcept(b, m, {p})
  {
    assert Step(a.ptr, l.Nodes(), l.base, bp);
    if q != l.base {
      assert Step(a.ptr, l.Nodes(), l.base, q) && Owns(a.size, l.owner, q);
      if bp + a.size[bp] == q {
        MergeKeeps(a, l, bp, q);
        MergeGaps(a, l, bp, q, {p, bp});
        assert {p, bp} - {bp} == {p};
      } else {
        Disjoint(a.size, l.Heads(), l.owner, bp, q);
        assert Gap(a, l.base, bp);
      }
    } else {
      assert Gap(a, l.base, bp);
    }
  }

  /** Second merge of free(): the list predecessor p with bp. */
  lemma MergeBelow(a: Arena, l: Layout, p: nat, bp: nat)
    requires Heap(a, l) && GapsExcept(a, l, {p}) && bp in l.free && p in l.Nodes() && p in a.ptr && a.ptr[p] == bp
    requires p in a.size && p < bp
    ensures bp in a.ptr && bp in a.size
    ensures
      var touch := p + a.size[p] == bp;
      var b, m := if touch then Merged(a, p, bp) else a, if touch then Absorbed(l, p, bp) else l;
      Heap(b, m) && Coalesced(b, m)
  {
    assert Step(a.ptr, l.Nodes(), l.base, bp) && Owns(a.size, l.owner, bp);
    if p + a.size[p] == bp {
      assert p != l.base;
      MergeKeeps(a, l, p, bp);
      MergeGaps(a, l, p, bp, {p});
      assert {p} - {p} == {};
    } else {
      if p != l.base { Disjoint(a.size, l.Heads(), l.owner, p, bp); }
      assert Gap(a, l.base, p);
    }
  }

  lemma SlotFacts(a: Arena, l: Layout, p: nat, bp: nat)
    requires Heap(a, l) && bp in l.live && p in l.Nodes() && Slot(a.ptr, l.base, p, bp)
    ensures p in a.size && bp in a.size && a.ptr[p] in a.ptr && a.ptr[p] in a.size && a.ptr[p] != bp
    ensures a.ptr[p] != l.base ==> a.ptr[p] in l.free && p != a.ptr[p]
  {
    assert Step(a.ptr, l.Nodes(), l.base, p) && Owns(a.size, l.owner, bp);
    assert Step(a.ptr, l.Nodes(), l.base, a.ptr[p]);
    if p != l.base { assert Owns(a.size, l.owner, p); }
    if a.ptr[p] != l.base { assert Owns(a.size, l.owner, a.ptr[p]); }
  }

  /** free() keeps the heap, leaves no two free blocks adjacent and frees exactly bp's units. */
  lemma ReturnKeeps(a: Arena, l: Layout, p: nat, bp: nat)
    requires Heap(a, l) && Coalesced(a, l) && bp in l.live && p in l.Nodes() && Slot(a.ptr, l.base, p, bp)
    ensures p in a.size && bp in a.size
    ensures
      var b, m := Returned(a, l.base, p, bp), ReturnedLayout(a, l, p, bp);
      && Heap(b, m) && Coalesced(b, m) && p in m.Nodes()
      && m.base == l.base && m.live == l.live - {bp} && m.owner.Keys == l.owner.Keys
    // p, or the successor of p, is the free block that now holds bp's units
    ensures
      var b, m := Returned(a, l.base, p, bp), ReturnedLayout(a, l, p, bp);
      var h := if p + a.size[p] == bp then p else bp;
      h in m.free && h in b.size && b.size[h] >= a.size[bp] && (h == p || b.ptr[p] == h)
  {
    SlotFacts(a, l, p, bp);
    InsertKeeps(a, l, p, bp);
    InsertGaps(a, l, p, bp);
    var a1, l1, q := Linked(a, p, bp), Freed(l, bp), a.ptr[p];
    MergeAbove(a1, l1, p, bp, q);
    var touch := q != l.base && bp + a.size[bp] == q;
    var a2, l2 := if touch then Merged(a1, bp, q) else a1, if touch then Absorbed(l1, bp, q) else l1;
    assert a2.size[p] == a.size[p] && a2.ptr[p] == bp;
    MergeBelow(a2, l2, p, bp);
    touch := p + a.size[p] == bp;
    assert Returned(a, l.base, p, bp) == if touch then Merged(a2, p, bp) else a2;
    assert ReturnedLayout(a, l, p, bp) == if touch then Absorbed(l2, p, bp) else l2;
  }

  /** The assignments of free() to s.size and s.ptr. */
  function AfterFree(a: Arena, p: nat, bp: nat): Arena
    requires p in a.ptr && p in a.size && bp in a.size && a.ptr[p] in a.ptr && a.ptr[p] in a.size
  {
    var q := a.ptr[p];
    var b :=
      if bp + a.size[bp] == q then Arena(a.ptr[bp := a.ptr[q]], a.size[bp := a.size[bp] + a.size[q]])
      else a.(ptr := a.ptr[bp := q]);
    if p + b.size[p] == bp then Arena(b.ptr[p := b.ptr[bp]], b.size[p := b.size[p] + b.size[bp]])
    else b.(ptr := b.ptr[p := bp])
  }

  lemma AfterFreeIsReturned(a: Arena, l: Layout, p: nat, bp: nat)
    requires Heap(a, l) && bp in l.live && p in l.Nodes() && Slot(a.ptr, l.base, p, bp)
    ensures p in a.size && bp in a.size && a.ptr[p] in a.ptr && a.ptr[p] in a.size
    ensures AfterFree(a, p, bp) == Returned(a, l.base, p, bp)
    ensures forall h :: h in l.live ==> h in a.size
    ensures forall h :: h in l.live - {bp} ==> h in AfterFree(a, p, bp).size && AfterFree(a, p, bp).size[h] == a.size[h]
  {
    SlotFacts(a, l, p, bp);
    var q := a.ptr[p];
    forall h | h in l.live
      ensures h in a.size
    {
      assert Owns(a.size, l.owner, h);
    }
    if bp + a.size[bp] == q {
      var x := a.ptr[q];
      assert a.ptr[bp := q][p := bp][bp := x][p := x] == a.ptr[bp := x][p := x];
      assert a.ptr[bp := q][p := bp][bp := x] == a.ptr[bp := x][p := bp];
    }
  }

  // ---------- The searches terminate ----------

  function Inside(nodes: set<nat>, lo: nat, hi: nat): set<nat> { set z | z in nodes && lo < z < hi }

  function Over(nodes: set<nat>, lo: nat): set<nat> { set z | z in nodes && lo < z }

  function Under(nodes: set<nat>, hi: nat): set<nat> { set z | z in nodes && z < hi }

  /** How many list elements lie ahead of p before address b is reached. */
  function Ahead(nodes: set<nat>, p: nat, b: nat): nat {
    if p < b then |Inside(nodes, p, b)| else |Over(nodes, p)| + |Under(nodes, b)|
  }

  lemma SmallerSet(s: set<nat>, t: set<nat>, x: nat)
    requires s <= t && x in t && x !in s
    ensures |s| < |t|
  {
    assert s <= t - {x};
    Subset(s, t - {x});
  }

  lemma {:induction false} Subset(s: set<nat>, t: set<nat>)
    requires s <= t
    ensures |s| <= |t|
  {
    if s != {} {
      var x :| x in s;
      Subset(s - {x}, t - {x});
    }
  }

  /** Following the list from p gets closer to b until b's slot, or b itself, is reached. */
  lemma AdvanceDecreases(ptr: map<nat, nat>, nodes: set<nat>, base: nat, p: nat, b: nat)
    requires Ring(ptr, nodes, base) && p in nodes && p != b && base <= b
    ensures p in ptr && ptr[p] in nodes
    ensures !Slot(ptr, base, p, b) && ptr[p] != b ==> Ahead(nodes, ptr[p], b) < Ahead(nodes, p, b)
    ensures b in nodes ==> !Slot(ptr, base, p, b)
  {
    assert Step(ptr, nodes, base, p);
    var n := ptr[p];
    if !Slot(ptr, base, p, b) && n != b {
      if p < b {
        SmallerSet(Inside(nodes, n, b), Inside(nodes, p, b), n);
      } else if n > p {
        SmallerSet(Over(nodes, n), Over(nodes, p), n);
      } else {
        SmallerSet(Inside(nodes, n, b), Under(nodes, b), n);
      }
    }
  }

  /** z is at or after p on the way round the list to f. */
  predicate Unseen(p: nat, f: nat, z: nat) {
    if p <= f then p <= z <= f else z >= p || z <= f
  }

  // ---------- malloc ----------

  /** The tail of free block p becomes a live block of n units. */
  function Split(a: Arena, p: nat, n: nat): Arena
    requires p in a.size && n < a.size[p]
  {
    a.(size := a.size[p := a.size[p] - n][p + a.size[p] - n := n])
  }

  function SplitLayout(a: Arena, l: Layout, p: nat, n: nat): Layout
    requires p in a.size && n < a.size[p]
  {
    var q := p + a.size[p] - n;
    l.(live := l.live + {q}, owner := Moved(l.owner, q, p, q))
  }

  lemma SplitFresh(size: map<nat, nat>, heads: set<nat>, owner: map<nat, nat>, p: nat, n: nat)
    requires Partition(size, heads, owner) && p in heads && p in size && 0 < n < size[p]
    ensures var q := p + size[p] - n; q !in heads && q in owner && owner[q] == p
  {
    var q := p + size[p] - n;
    assert Owns(size, owner, p);
    assert owner[q] == p;
    assert q in heads ==> Owns(size, owner, q);
  }

  lemma SplitPartition(size: map<nat, nat>, heads: set<nat>, owner: map<nat, nat>, p: nat, n: nat)
    requires Partition(size, heads, owner) && p in heads && p in size && 0 < n < size[p]
    ensures
      var q := p + size[p] - n;
      && q !in heads
      && Partition(size[p := size[p] - n][q := n], heads + {q}, Moved(owner, q, p, q))
  {
    var q := p + size[p] - n;
    SplitFresh(size, heads, owner, p, n);
    SplitHeads(size, heads, owner, p, n, q, size[p := size[p] - n][q := n], Moved(owner, q, p, q));
    SplitUnits(size, heads, owner, p, n, q, size[p := size[p] - n][q := n], Moved(owner, q, p, q));
  }

  lemma SplitHeads(
      size: map<nat, nat>, heads: set<nat>, owner: map<nat, nat>, p: nat, n: nat, q: nat,
      size': map<nat, nat>, owner': map<nat, nat>)
    requires Partition(size, heads, owner) && p in heads && p in size && 0 < n < size[p] && q == p + size[p] - n
    requires size' == size[p := size[p] - n][q := n] && owner' == Moved(owner, q, p, q)
    ensures forall h {:trigger Owns(size', owner', h)} :: h in heads + {q} ==> Owns(size', owner', h)
  {
    forall h | h in heads + {q}
      ensures Owns(size', owner', h)
    {
      SplitOwns(size, heads, owner, p, n, h);
    }
  }

  lemma SplitUnits(
      size: map<nat, nat>, heads: set<nat>, owner: map<nat, nat>, p: nat, n: nat, q: nat,
      size': map<nat, nat>, owner': map<nat, nat>)
    requires Partition(size, heads, owner) && p in heads && p in size && 0 < n < size[p] && q == p + size[p] - n
    requires size' == size[p := size[p] - n][q := n] && owner' == Moved(owner, q, p, q)
    ensures forall u :: u in owner' ==>
      owner'[u] in heads + {q} && owner'[u] in size' && owner'[u] <= u < owner'[u] + size'[owner'[u]]
  {
    forall u | u in owner'
      ensures owner'[u] in heads + {q} && owner'[u] in size' && owner'[u] <= u < owner'[u] + size'[owner'[u]]
    {
      SplitUnit(size, heads, owner, p, n, u);
    }
  }

  lemma SplitUnit(size: map<nat, nat>, heads: set<nat>, owner: map<nat, nat>, p: nat, n: nat, u: nat)
    requires Partition(size, heads, owner) && p in heads && p in size && 0 < n < size[p]
    requires u in Moved(owner, p + size[p] - n, p, p + size[p] - n)
    ensures
      var q := p + size[p] - n;
      var h, size' := Moved(owner, q, p, q)[u], size[p := size[p] - n][q := n];
      h in heads + {q} && h in size' && h <= u < h + size'[h]
  {
    SplitFresh(size, heads, owner, p, n);
  }

  lemma SplitOwns(size: map<nat, nat>, heads: set<nat>, owner: map<nat, nat>, p: nat, n: nat, h: nat)
    requires Partition(size, heads, owner) && p in heads && p in size && 0 < n < size[p]
    requires h in heads || h == p + size[p] - n
    ensures var q := p + size[p] - n; Owns(size[p := size[p] - n][q := n], Moved(owner, q, p, q), h)
  {
    assert Owns(size, owner, p) && (h in heads ==> Owns(size, owner, h));
    assert p + size[p] - n in heads ==> Owns(size, owner, p + size[p] - n);
  }

  lemma SplitKeeps(a: Arena, l: Layout, p: nat, n: nat)
    requires Heap(a, l) && Coalesced(a, l) && p in l.free && p in a.size && 0 < n < a.size[p]
    ensures
      var b, m := Split(a, p, n), SplitLayout(a, l, p, n);
      Heap(b, m) && Coalesced(b, m) && p + a.size[p] - n !in l.Heads() && m.owner.Keys == l.owner.Keys
  {
    var b, m, q := Split(a, p, n), SplitLayout(a, l, p, n), p + a.size[p] - n;
    SplitPartition(a.size, l.Heads(), l.owner, p, n);
    assert m.Heads() == l.Heads() + {q} && m.Nodes() == l.Nodes();
    forall x | x in m.Nodes()
      ensures Gap(b, m.base, x)
    {
      assert Gap(a, l.base, x);
    }
  }

  ghost predicate Sound(a: Arena, l: Layout, freep: Option<nat>, base: nat, brk: nat, supplied: nat) {
    && l.base == base < brk && (forall u :: u in l.owner ==> u < brk) && |l.owner| == supplied
    && match freep
       case None => l.free == {} && l.live == {} && l.owner == map[]
       case Some(f) => Heap(a, l) && Coalesced(a, l) && f in l.Nodes()
  }

  lemma SplitSound(a: Arena, l: Layout, f: nat, base: nat, brk: nat, supplied: nat, p: nat, n: nat)
    requires Sound(a, l, Some(f), base, brk, supplied) && p in l.free && p in a.size && 0 < n < a.size[p]
    ensures
      var m, q := SplitLayout(a, l, p, n), p + a.size[p] - n;
      && Sound(Split(a, p, n), m, Some(f), base, brk, supplied) && q !in l.Heads()
      && m.live == l.live + {q} && m.Nodes() == l.Nodes()
  {
    SplitKeeps(a, l, p, n);
    SplitSame(a, l, p, n);
  }

  lemma SplitSizes(a: Arena, p: nat, n: nat)
    requires p in a.size && 0 < n < a.size[p]
    ensures
      var b, q := Split(a, p, n), p + a.size[p] - n;
      && q in b.size && b.size[q] == n
      && forall h :: h in a.size && h != p && h != q ==> h in b.size && b.size[h] == a.size[h]
  {
  }

  lemma SplitSame(a: Arena, l: Layout, p: nat, n: nat)
    requires p in a.size && 0 < n < a.size[p] && SplitLayout(a, l, p, n).owner.Keys == l.owner.Keys
    ensures
      var m := SplitLayout(a, l, p, n);
      |m.owner| == |l.owner| && m.Nodes() == l.Nodes() && forall u :: u in m.owner ==> u in l.owner
  {
    var m := SplitLayout(a, l, p, n);
    assert |m.owner.Keys| == |l.owner.Keys|;
  }

  /** Free block p, which follows prev in the list, becomes live as a whole. */
  function Unlinked(a: Arena, prev: nat, p: nat): Arena
    requires p in a.ptr
  {
    a.(ptr := a.ptr[prev := a.ptr[p]])
  }

  function Taken(l: Layout, p: nat): Layout {
    l.(free := l.free - {p}, live := l.live + {p})
  }

  lemma TakeKeeps(a: Arena, l: Layout, prev: nat, p: nat)
    requires Heap(a, l) && Coalesced(a, l) && prev in l.Nodes() && prev in a.ptr && a.ptr[prev] == p && p in l.free
    ensures p in a.ptr && Heap(Unlinked(a, prev, p), Taken(l, p)) && Coalesced(Unlinked(a, prev, p), Taken(l, p))
    ensures prev != p && prev in Taken(l, p).Nodes()
  {
    RemoveRing(a.ptr, l.Nodes(), l.base, prev, p);
    var b, m := Unlinked(a, prev, p), Taken(l, p);
    assert m.Nodes() == l.Nodes() - {p} && m.Heads() == l.Heads();
    assert Step(a.ptr, l.Nodes(), l.base, p) && Step(a.ptr, l.Nodes(), l.base, prev);
    assert Gap(a, l.base, prev) && Gap(a, l.base, p);
    forall x | x in m.Nodes()
      ensures Gap(b, m.base, x)
    {
      assert Gap(a, l.base, x);
    }
  }

  // ---------- morecore ----------

  /** A fresh region of n units at address `at`, with its header, counted as live. */
  function Grown(a: Arena, at: nat, n: nat): Arena {
    a.(size := a.size[at := n])
  }

  function GrownLayout(l: Layout, at: nat, n: nat): Layout {
    l.(live := l.live + {at}, owner := Extended(l.owner, at, n))
  }

  /** The units of the region [at, at + n) join the heap as one block. */
  function Extended(owner: map<nat, nat>, at: nat, n: nat): map<nat, nat> {
    owner + map u | u in Region(at, n) :: at
  }

  function Region(at: nat, n: nat): (r: set<nat>)
    ensures |r| == n && forall u :: u in r <==> at <= u < at + n
  {
    if n == 0 then {} else Region(at, n - 1) + {at + n - 1}
  }

  lemma GrowPartition(size: map<nat, nat>, heads: set<nat>, owner: map<nat, nat>, at: nat, n: nat)
    requires Partition(size, heads, owner) && n > 0 && forall u :: u in owner ==> u < at
    ensures at !in heads && Partition(size[at := n], heads + {at}, Extended(owner, at, n))
  {
    assert at in heads ==> Owns(size, owner, at) && at in owner;
    forall h | h in heads + {at}
      ensures Owns(size[at := n], Extended(owner, at, n), h)
    {
      if h != at { assert Owns(size, owner, h); }
    }
  }

  lemma GrowKeeps(a: Arena, l: Layout, at: nat, n: nat)
    requires Heap(a, l) && Coalesced(a, l) && n > 0 && l.base < at
    requires forall u :: u in l.owner ==> u < at
    ensures
      var b, m := Grown(a, at, n), GrownLayout(l, at, n);
      Heap(b, m) && Coalesced(b, m) && at !in l.Heads()
  {
    var b, m := Grown(a, at, n), GrownLayout(l, at, n);
    GrowPartition(a.size, l.Heads(), l.owner, at, n);
    assert m.Heads() == l.Heads() + {at} && m.Nodes() == l.Nodes();
    forall x | x in m.Nodes()
      ensures Gap(b, m.base, x)
    {
      assert Gap(a, l.base, x);
    }
  }

  // ---------- Conservation ----------

  ghost function Total(heads: set<nat>, size: map<nat, nat>): nat {
    if heads == {} then 0
    else var h :| h in heads; (if h in size then size[h] else 0) + Total(heads - {h}, size)
  }

  lemma DropPartition(size: map<nat, nat>, heads: set<nat>, owner: map<nat, nat>, h: nat)
    requires Partition(size, heads, owner) && h in heads
    ensures h in size && Region(h, size[h]) <= owner.Keys
    ensures Partition(size, heads - {h}, owner - Region(h, size[h]))
  {
    assert Owns(size, owner, h);
    var rest := owner - Region(h, size[h]);
    forall k | k in heads - {h}
      ensures Owns(size, rest, k)
    {
      DropOwns(size, heads, owner, h, k);
    }
    forall u | u in rest
      ensures rest[u] in heads - {h} && rest[u] in size && rest[u] <= u < rest[u] + size[rest[u]]
    {
      assert u in owner && u !in Region(h, size[h]);
    }
  }

  lemma DropOwns(size: map<nat, nat>, heads: set<nat>, owner: map<nat, nat>, h: nat, k: nat)
    requires Partition(size, heads, owner) && h in heads && k in heads && h != k
    ensures h in size && Owns(size, owner - Region(h, size[h]), k)
  {
    assert Owns(size, owner, h) && Owns(size, owner, k);
    if h < k { Disjoint(size, heads, owner, h, k); } else { Disjoint(size, heads, owner, k, h); }
  }

  /** The sizes of all blocks, free and live, sum to the number of units obtained from sbrk. */
  lemma {:induction false} SizesSum(size: map<nat, nat>, heads: set<nat>, owner: map<nat, nat>)
    requires Partition(size, heads, owner)
    ensures Total(heads, size) == |owner|
    decreases heads
  {
    if heads == {} {
      assert owner.Keys == {};
    } else {
      var h :| h in heads && Total(heads, size) == (if h in size then size[h] else 0) + Total(heads - {h}, size);
      DropPartition(size, heads, owner, h);
      var rest := owner - Region(h, size[h]);
      SizesSum(size, heads - {h}, rest);
      assert rest.Keys == owner.Keys - Region(h, size[h]);
      assert owner.Keys == rest.Keys + Region(h, size[h]);
      assert |owner.Keys| == |rest.Keys| + size[h];
    }
  }

  // ---------- The code ----------

  datatype Option<T> = None | Some(value: T)

  const HEADER := 16           // sizeof(Header)
  const MIN_UNITS := 4096      // smallest request of morecore

  /** A 64-bit byte count as the int parameter of sbrk. */
  function Int32(x: nat): int {
    var y := x % 0x1_0000_0000;
    if y < 0x8000_0000 then y else y - 0x1_0000_0000
  }

  function Units(nbytes: nat): nat { (nbytes + HEADER - 1) / HEADER + 1 }

  /** Behind the header there is room for nbytes bytes, and for less than one header more. */
  lemma UnitsIs(nbytes: nat)
    ensures Units(nbytes) > 0 && nbytes <= (Units(nbytes) - 1) * HEADER < nbytes + HEADER
  {
    assert (nbytes + HEADER - 1) / HEADER * HEADER + (nbytes + HEADER - 1) % HEADER == nbytes + HEADER - 1;
  }

  /** The unit that byte x from unit address p on lies in. */
  function UnitOf(p: nat, x: nat): nat { p + x / HEADER }

  predicate InBlock(owner: map<nat, nat>, h: nat, u: nat) { u in owner && owner[u] == h }

  /** The bytes behind the header of a block all lie in it. */
  lemma BytesInside(size: map<nat, nat>, owner: map<nat, nat>, h: nat, nbytes: nat, x: nat)
    requires Owns(size, owner, h) && nbytes <= (size[h] - 1) * HEADER && x < nbytes
    ensures InBlock(owner, h, UnitOf(h + 1, x))
  {
    assert x / HEADER < size[h] - 1;
  }

  lemma AllInside(size: map<nat, nat>, owner: map<nat, nat>, h: nat, p: nat, nbytes: nat)
    requires Owns(size, owner, h) && nbytes <= (size[h] - 1) * HEADER && p == h + 1
    ensures forall x: nat :: x < nbytes ==> InBlock(owner, h, UnitOf(p, x))
  {
    forall x: nat | x < nbytes
      ensures InBlock(owner, h, UnitOf(p, x))
    {
      BytesInside(size, owner, h, nbytes, x);
    }
  }

  function Request(nunits: nat): nat { if nunits < MIN_UNITS then MIN_UNITS else nunits }

  /** morecore asks sbrk for as many bytes as the header will claim. */
  predicate Fits(nunits: nat) { Int32(Request(nunits) * HEADER) == Request(nunits) * HEADER }

  /** For a malloc argument, a uint, the request survives the cast exactly below 2^31 - 31 bytes. */
  lemma FitsIff(nbytes: nat)
    requires nbytes < 0x1_0000_0000
    ensures Fits(Units(nbytes)) <==> nbytes <= 0x7fff_ffe0
  {
  }

  /** The largest argument: the header claims 268435457 units, sbrk is asked for one. */
  lemma LargestRequestIsCut()
    ensures Units(0xffff_ffff) == 268435457 && Int32(Request(Units(0xffff_ffff)) * HEADER) == HEADER
  {
  }

  class Allocator {
    const base: nat
    var a: Arena
    var freep: Option<nat>
    ghost var l: Layout
    ghost var brk: nat        // all memory obtained so far lies below
    ghost var supplied: nat   // units obtained from sbrk

    ghost predicate Valid()
      reads this
    {
      Sound(a, l, freep, base, brk, supplied)
    }

    constructor (base: nat)
      ensures Valid() && this.base == base && l.live == {} && supplied == 0
    {
      this.base := base;
      a, freep := Arena(map[], map[]), None;
      l, brk, supplied := Layout(base, {}, {}, map[]), base + 1, 0;
    }

    /** The search of free(): from freep round the list to the slot of bp. */
    method FindSlot(bp: nat) returns (p: nat)
      requires Valid() && bp in l.live
      ensures p in l.Nodes() && Slot(a.ptr, base, p, bp)
    {
      p := freep.value;
      AdvanceDecreases(a.ptr, l.Nodes(), base, p, bp);
      while !(bp > p && bp < a.ptr[p])
        invariant p in l.Nodes() && p in a.ptr && p != bp
        decreases Ahead(l.Nodes(), p, bp)
      {
        assert Step(a.ptr, l.Nodes(), base, p);
        if p >= a.ptr[p] && (bp > p || bp < a.ptr[p]) {
          break;
        }
        AdvanceDecreases(a.ptr, l.Nodes(), base, p, bp);
        p := a.ptr[p];
        AdvanceDecreases(a.ptr, l.Nodes(), base, p, bp);
      }
      assert Step(a.ptr, l.Nodes(), base, p);
    }

    /** free(ap) with ap == bp + 1. */
    method Free(bp: nat)
      requires Valid() && bp in l.live
      modifies this
      ensures Valid() && freep.Some? && l.live == old(l.live) - {bp}
      ensures brk == old(brk) && supplied == old(supplied)
      ensures forall h :: h in l.live ==> h in a.size && h in old(a.size) && a.size[h] == old(a.size[h])
      ensures bp in old(a.size) && RoomNear(freep.value, old(a.size[bp]))
    {
      var p := FindSlot(bp);
      AfterFreeIsReturned(a, l, p, bp);
      ReturnKeeps(a, l, p, bp);
      l := ReturnedLayout(a, l, p, bp);
      Relink(p, bp);
      freep := Some(p);
    }

    /** The assignments of free() to the headers. */
    method Relink(p: nat, bp: nat)
      requires p in a.ptr && p in a.size && bp in a.size && a.ptr[p] in a.ptr && a.ptr[p] in a.size
      modifies this`a
      ensures a == AfterFree(old(a), p, bp)
    {
      if bp + a.size[bp] == a.ptr[p] {
        var q := a.ptr[p];
        a := Arena(a.ptr[bp := a.ptr[q]], a.size[bp := a.size[bp] + a.size[q]]);
      } else {
        a := a.(ptr := a.ptr[bp := a.ptr[p]]);
      }
      if p + a.size[p] == bp {
        a := Arena(a.ptr[p := a.ptr[bp]], a.size[p := a.size[p] + a.size[bp]]);
      } else {
        a := a.(ptr := a.ptr[p := bp]);
      }
    }

    /** List element f, or the next one, is a free block of at least n units. */
    ghost predicate RoomNear(f: nat, n: nat)
      reads this
    {
      && f in a.ptr
      && (|| (f in l.free && f in a.size && a.size[f] >= n)
          || (a.ptr[f] in l.free && a.ptr[f] in a.size && a.size[a.ptr[f]] >= n))
    }

    /**
     morecore: `grant` is what sbrk answers, None for SBRK_ERROR. With cut set,
     sbrk was asked for fewer bytes than the header would claim; the model does
     not follow the program any further then.
     */
    method MoreCore(nunits: nat, grant: Option<nat>) returns (ok: bool, cut: bool)
      requires Valid() && freep.Some? && nunits > 0 && (grant.Some? ==> brk <= grant.value)
      modifies this
      ensures Valid() && freep.Some? && l.live == old(l.live)
      ensures cut <==> grant.Some? && !Fits(nunits)
      ensures ok <==> grant.Some? && Fits(nunits)
      ensures ok ==> RoomNear(freep.value, nunits) && supplied == old(supplied) + Request(nunits)
      ensures !ok ==> a == old(a) && l == old(l) && supplied == old(supplied)
      ensures forall h :: h in l.live ==> h in a.size && h in old(a.size) && a.size[h] == old(a.size[h])
    {
      LiveSized();
      var nu := nunits;
      if nu < MIN_UNITS { nu := MIN_UNITS; }
      if grant.None? { return false, false; }
      if Int32(nu * HEADER) != nu * HEADER { return false, true; }
      AddRegion(grant.value, nu);
      Free(grant.value);
      return true, false;
    }

    /** The region sbrk returned gets a header and counts as a live block. */
    method AddRegion(hp: nat, nu: nat)
      requires Valid() && freep.Some? && brk <= hp && nu > 0
      modifies this
      ensures Valid() && freep == old(freep) && hp !in old(l.live) && l.live == old(l.live) + {hp}
      ensures a == Grown(old(a), hp, nu) && supplied == old(supplied) + nu
      ensures forall h :: h in old(l.live) ==> h in old(a.size) && h != hp
    {
      LiveSized();
      GrowKeeps(a, l, hp, nu);
      GrownSize(l.owner, hp, nu);
      a := a.(size := a.size[hp := nu]);
      l, brk, supplied := GrownLayout(l, hp, nu), hp + nu, supplied + nu;
    }

    /** A free block of at least n units exists. */
    ghost predicate HasRoom(n: nat)
      reads this
    {
      exists h :: h in l.free && h in a.size && a.size[h] >= n
    }

    /**
     malloc(nbytes): Some(h + 1) is the returned address, h the new live block.
     It is null exactly when no free block is large enough and sbrk
     fails, and `cut` when sbrk was asked for less than the block needs.
     */
    method Malloc(nbytes: nat, grant: Option<nat>) returns (r: Option<nat>, cut: bool)
      requires Valid() && nbytes < 0x1_0000_0000 && (grant.Some? ==> brk <= grant.value)
      modifies this
      ensures Valid()
      ensures cut <==> !old(HasRoom(Units(nbytes))) && grant.Some? && nbytes > 0x7fff_ffe0
      ensures r.None? <==> cut || (!old(HasRoom(Units(nbytes))) && grant.None?)
      ensures r.None? ==> l.live == old(l.live)
      ensures r.Some? ==> r.value > 0 && r.value - 1 !in old(l.live) && l.live == old(l.live) + {r.value - 1}
      ensures r.Some? ==> r.value - 1 in a.size && a.size[r.value - 1] == Units(nbytes)
      ensures r.Some? ==> nbytes <= (a.size[r.value - 1] - 1) * HEADER < nbytes + HEADER
      ensures r.Some? ==> forall x: nat :: x < nbytes ==> InBlock(l.owner, r.value - 1, UnitOf(r.value, x))
      ensures forall h :: h in old(l.live) ==> h in a.size && h in old(a.size) && a.size[h] == old(a.size[h])
      ensures supplied == old(supplied) + if old(HasRoom(Units(nbytes))) || r.None? then 0 else Request(Units(nbytes))
    {
      FitsIff(nbytes);
      LiveSized();
      var nunits := (nbytes + HEADER - 1) / HEADER + 1;
      cut := false;
      if freep.None? { Initialize(); }
      var found, prevp := Search(nunits);
      if !found {
        found, cut, prevp := GrowAndSearch(nunits, grant);
        if !found { return None, cut; }
      }
      var p := Carve(prevp, nunits);
      UnitsIs(nbytes);
      assert p in l.Heads() && Owns(a.size, l.owner, p);
      AllInside(a.size, l.owner, p, p + 1, nbytes);
      return Some(p + 1), cut;
    }

    /** malloc's loop after a full round without success; after morecore it must succeed. */
    method GrowAndSearch(nunits: nat, grant: Option<nat>) returns (found: bool, cut: bool, prevp: nat)
      requires Valid() && freep.Some? && nunits > 0 && (grant.Some? ==> brk <= grant.value)
      modifies this
      ensures Valid() && freep.Some? && l.live == old(l.live)
      ensures (cut <==> grant.Some? && !Fits(nunits)) && (found <==> grant.Some? && Fits(nunits))
      ensures found ==> prevp in l.Nodes() && prevp in a.ptr && a.ptr[prevp] in l.free
      ensures found ==> a.ptr[prevp] in a.size && a.size[a.ptr[prevp]] >= nunits
      ensures supplied == old(supplied) + if found then Request(nunits) else 0
      ensures forall h :: h in l.live ==> h in a.size && h in old(a.size) && a.size[h] == old(a.size[h])
    {
      prevp := 0;
      found, cut := MoreCore(nunits, grant);
      if found {
        found, prevp := Search(nunits);
      }
    }

    /** One round of malloc's loop, first fit from the successor of freep up to freep. */
    method Search(nunits: nat) returns (found: bool, prevp: nat)
      requires Valid() && freep.Some? && nunits > 0
      ensures found <==> HasRoom(nunits)
      ensures found ==> prevp in l.Nodes() && prevp in a.ptr && a.ptr[prevp] in l.free
      ensures found ==> a.ptr[prevp] in a.size && a.size[a.ptr[prevp]] >= nunits
      ensures found ==> forall z :: z in l.Nodes() && !Unseen(a.ptr[prevp], freep.value, z) ==>
        z in a.size && a.size[z] < nunits
    {
      var f := freep.value;
      prevp := f;
      assert Step(a.ptr, l.Nodes(), base, prevp);
      var p := a.ptr[prevp];
      while true
        invariant prevp in l.Nodes() && prevp in a.ptr && a.ptr[prevp] == p && p in l.Nodes()
        invariant forall z :: z in l.Nodes() ==> Unseen(p, f, z) || (z in a.size && a.size[z] < nunits)
        decreases if p == f then 0 else Ahead(l.Nodes(), p, f) + 1
      {
        assert p != base ==> Owns(a.size, l.owner, p);
        if a.size[p] >= nunits {
          return true, prevp;
        }
        if p == f {
          return false, prevp;
        }
        AdvanceDecreases(a.ptr, l.Nodes(), base, p, f);
        assert Step(a.ptr, l.Nodes(), base, p);
        prevp := p;
        p := a.ptr[p];
      }
    }

    /** Taking n units off the block that follows prevp. */
    method Carve(prevp: nat, n: nat) returns (p: nat)
      requires Valid() && freep.Some? && n > 0
      requires prevp in l.Nodes() && prevp in a.ptr && a.ptr[prevp] in l.free
      requires a.ptr[prevp] in a.size && a.size[a.ptr[prevp]] >= n
      modifies this
      ensures Valid() && p !in old(l.live) && l.live == old(l.live) + {p} && p in a.size && a.size[p] == n
      ensures supplied == old(supplied) && freep == Some(prevp)
      ensures p == old(a.ptr[prevp] + a.size[a.ptr[prevp]]) - n
      ensures forall h :: h in old(l.live) ==> h in a.size && h in old(a.size) && a.size[h] == old(a.size[h])
    {
      LiveSized();
      p := a.ptr[prevp];
      if a.size[p] == n {
        TakeKeeps(a, l, prevp, p);
        a := a.(ptr := a.ptr[prevp := a.ptr[p]]);
        l := Taken(l, p);
      } else {
        p := CutTail(p, n);
      }
      freep := Some(prevp);
    }

    /** The last n units of free block p become a block of their own. */
    method CutTail(p: nat, n: nat) returns (q: nat)
      requires Valid() && freep.Some? && p in l.free && p in a.size && 0 < n < a.size[p]
      modifies this`a, this`l
      ensures Valid() && q !in old(l.Heads()) && l.live == old(l.live) + {q} && l.Nodes() == old(l.Nodes())
      ensures q in a.size && a.size[q] == n && q == p + old(a.size[p]) - n
      ensures forall h :: h in old(a.size) && h != p && h != q ==> h in a.size && a.size[h] == old(a.size[h])
    {
      ghost var m := SplitLayout(a, l, p, n);
      SplitSound(a, l, freep.value, base, brk, supplied, p, n);
      SplitSizes(a, p, n);
      q := p + a.size[p] - n;
      a, l := Split(a, p, n), m;
    }

    /** First call: the list is the base alone. */
    method Initialize()
      requires Valid() && freep.None?
      modifies this`a, this`freep
      ensures Valid() && freep == Some(base) && base in a.ptr && a.ptr[base] == base
    {
      a := Arena(a.ptr[base := base], a.size[base := 0]);
      freep := Some(base);
      assert l.Nodes() == {base} && l.Heads() == {};
      assert Step(a.ptr, l.Nodes(), base, base) && Gap(a, base, base);
    }

    ghost method LiveSized()
      requires Valid()
      ensures forall h :: h in l.live ==> h in a.size
    {
      forall h | h in l.live
        ensures h in a.size
      {
        assert Owns(a.size, l.owner, h);
      }
    }
  }

  lemma GrownSize(owner: map<nat, nat>, at: nat, n: nat)
    requires forall u :: u in owner ==> u < at
    ensures |Extended(owner, at, n)| == |owner| + n
    ensures forall u :: u in Extended(owner, at, n) ==> u < at + n
  {
    assert Extended(owner, at, n).Keys == owner.Keys + Region(at, n);
    assert owner.Keys !! Region(at, n);
  }
}
