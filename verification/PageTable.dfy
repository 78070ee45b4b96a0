/**
 The Sv39 page tables of PA3/vm.c: walk, mappages, uvmunmap, uvmalloc,
 uvmdealloc and freewalk on pages of 512 entries. The three-level tree is shown
 to be a flat map from virtual page numbers to entries.
 */
module PageTable {

  // An entry: physical page number and the ten flag bits
  datatype Pte = Pte(ppn: nat, flags: bv10)

  datatype Option<T> = None | Some(value: T)

  const Zero := Pte(0, 0)
  const PTE_V: bv10 := 1
  const PTE_RWX: bv10 := 14
  const MAX_VPN := 0x400_0000  // MAXVA / PGSIZE
  const TRAPFRAME_VPN := MAX_VPN - 2
  const GROW_PERM: bv10 := 22   // R, W and U

  predicate Valid(e: Pte) { e.flags & PTE_V != 0 }

  // A page-table page by its place in the tree: its level, and the virtual page
  // numbers it serves as a prefix
  datatype Node = Node(level: nat, prefix: nat)

  const Root := Node(2, 0)

  /** PX(level, va) for the page number of va. */
  function Index(level: nat, vpn: nat): (i: nat)
    requires level <= 2
    ensures i < 512
  {
    (if level == 0 then vpn else if level == 1 then vpn / 512 else vpn / 262144) % 512
  }

  function NodeFor(level: nat, vpn: nat): Node
    requires level <= 2
  {
    Node(level, if level == 0 then vpn / 512 else if level == 1 then vpn / 262144 else vpn / 134217728)
  }

  function Child(n: Node, i: nat): Node
    requires n.level > 0
  {
    Node(n.level - 1, n.prefix * 512 + i)
  }

  function Parent(n: Node): Node { Node(n.level + 1, n.prefix / 512) }

  /** Dividing by 512 once more. */
  lemma DivDiv(v: nat, d: nat)
    requires d == 512 || d == 262144
    ensures v / (d * 512) == v / d / 512
  {
    var a := v / d;
    var b := a / 512;
    assert v == d * a + v % d && a == 512 * b + a % 512;
    assert v == d * 512 * b + (d * (a % 512) + v % d);
  }

  lemma ChildFor(level: nat, vpn: nat)
    requires 1 <= level <= 2
    ensures NodeFor(level - 1, vpn) == Child(NodeFor(level, vpn), Index(level, vpn))
  {
    DivDiv(vpn, 512);
    DivDiv(vpn, 262144);
  }

  lemma ParentOfChild(n: Node, i: nat)
    requires n.level > 0 && i < 512
    ensures Parent(Child(n, i)) == n && Child(n, i).prefix % 512 == i
  {
  }

  type Pages = map<nat, seq<Pte>>
  type Tables = map<Node, nat>

  /** Inner entry i of table n is valid, without R, W or X, exactly when it points to a table. */
  ghost predicate EntryOk(page: seq<Pte>, t: Tables, n: Node, i: nat)
    requires n.level > 0
  {
    i < |page| && var c := Child(n, i); if c in t then page[i] == Pte(t[c], PTE_V) else page[i] == Zero
  }

  ghost predicate PageOk(page: seq<Pte>, t: Tables, n: Node) {
    && |page| == 512
    && (n.level > 0 ==> forall i: nat {:trigger EntryOk(page, t, n, i)} :: i < 512 ==> EntryOk(page, t, n, i))
  }

  ghost predicate NodeOk(pt: Pages, t: Tables, n: Node) {
    && n in t && n.level <= 2 && t[n] in pt && PageOk(pt[t[n]], t, n)
    && (n == Root || (n.level < 2 && Parent(n) in t))
  }

  ghost predicate Unshared(t: Tables, n: Node) {
    n in t && forall m :: m in t && t[m] == t[n] ==> m == n
  }

  /** The pages form a tree under the root: no page is shared, every table is reachable. */
  ghost predicate Tree(pt: Pages, t: Tables) {
    && Root in t
    && (forall n {:trigger NodeOk(pt, t, n)} :: n in t ==> NodeOk(pt, t, n))
    && (forall n {:trigger Unshared(t, n)} :: n in t ==> Unshared(t, n))
  }

  /** The flat map: the leaf entry of a virtual page. */
  function Leaf(pt: Pages, t: Tables, vpn: nat): Pte {
    var n := NodeFor(0, vpn);
    if n in t && t[n] in pt && Index(0, vpn) < |pt[t[n]]| then pt[t[n]][Index(0, vpn)] else Zero
  }

  // ---------- The hardware's view ----------

  /** The nine bits of a virtual address that select an entry at a level: from bit 12, 21 or 30 on. */
  function Field(va: nat, level: nat): (i: nat)
    ensures i < 512
  {
    (if level == 0 then va / 0x1000 else if level == 1 then va / 0x20_0000 else va / 0x4000_0000) % 512
  }

  /** Sv39 address translation from table page p on: the leaf entry, or nothing for a page fault. */
  function Translate(pt: Pages, p: nat, va: nat, level: nat): Option<Pte>
    decreases level
  {
    if p !in pt || |pt[p]| != 512 then None
    else
      var e := pt[p][Field(va, level)];
      if !Valid(e) then None
      else if level == 0 || e.flags & PTE_RWX != 0 then Some(e)
      else Translate(pt, e.ppn, va, level - 1)
  }

  lemma FieldIs(va: nat, level: nat)
    requires level <= 2
    ensures Field(va, level) == Index(level, va / 4096)
  {
    DivMore(va, 4096, 512);
    DivMore(va, 4096, 262144);
  }

  lemma DivMore(v: nat, d: nat, e: nat)
    requires d == 4096 && (e == 512 || e == 262144)
    ensures v / (d * e) == v / d / e
  {
    var a := v / d;
    var b := a / e;
    assert v == d * a + v % d && a == e * b + a % e;
    assert v == d * e * b + (d * (a % e) + v % d);
  }

  lemma {:induction false} TranslateFrom(pt: Pages, t: Tables, va: nat, level: nat)
    requires Tree(pt, t) && level <= 2 && va / 4096 < MAX_VPN && NodeFor(level, va / 4096) in t
    ensures
      var e := Leaf(pt, t, va / 4096);
      Translate(pt, t[NodeFor(level, va / 4096)], va, level) == if Valid(e) then Some(e) else None
  {
    var v := va / 4096;
    var n := NodeFor(level, v);
    FieldIs(va, level);
    assert NodeOk(pt, t, n);
    if level > 0 {
      ChildFor(level, v);
      assert EntryOk(pt[t[n]], t, n, Index(level, v));
      if NodeFor(level - 1, v) in t {
        TranslateFrom(pt, t, va, level - 1);
      } else {
        PathExists(pt, t, v);
        assert !Valid(Zero);
      }
    }
  }

  /** The flat map is what the hardware sees at every address. */
  lemma HardwareSees(pt: Pages, t: Tables, va: nat)
    requires Tree(pt, t) && va / 4096 < MAX_VPN
    ensures
      var e := Leaf(pt, t, va / 4096);
      Translate(pt, t[Root], va, 2) == if Valid(e) then Some(e) else None
  {
    PathExists(pt, t, va / 4096);
    TranslateFrom(pt, t, va, 2);
  }

  function Blank(): (s: seq<Pte>)
    ensures |s| == 512 && forall i :: 0 <= i < 512 ==> s[i] == Zero
  {
    seq(512, _ => Zero)
  }

  // ---------- Adding a table ----------

  ghost predicate NotTable(t: Tables, p: nat) { forall m :: m in t ==> t[m] != p }

  /** A zeroed page p becomes the table below entry i of table n. */
  function Added(pt: Pages, t: Tables, n: Node, i: nat, p: nat): Pages
    requires n in t && t[n] in pt && i < |pt[t[n]]|
  {
    pt[p := Blank()][t[n] := pt[t[n]][i := Pte(p, PTE_V)]]
  }

  /** A page stays a good table when the table c is added elsewhere. */
  lemma PageFrame(page: seq<Pte>, t: Tables, n: Node, c: Node, p: nat)
    requires PageOk(page, t, n) && c !in t && Parent(c) != n
    ensures PageOk(page, t[c := p], n)
  {
    var t' := t[c := p];
    if n.level > 0 {
      forall i: nat | i < 512
        ensures EntryOk(page, t', n, i)
      {
        assert EntryOk(page, t, n, i);
        ParentOfChild(n, i);
      }
    }
  }

  lemma PageAdd(page: seq<Pte>, t: Tables, n: Node, i: nat, p: nat)
    requires PageOk(page, t, n) && n.level > 0 && i < 512
    ensures PageOk(page[i := Pte(p, PTE_V)], t[Child(n, i) := p], n)
  {
    ParentOfChild(n, i);
    var page', t' := page[i := Pte(p, PTE_V)], t[Child(n, i) := p];
    forall j: nat | j < 512
      ensures EntryOk(page', t', n, j)
    {
      assert EntryOk(page, t, n, j);
      ParentOfChild(n, j);
    }
  }

  /** A blank page is a good table for a node none of whose children is a table. */
  lemma PageBlank(t: Tables, n: Node)
    requires n.level > 0 ==> forall i: nat :: i < 512 ==> Child(n, i) !in t
    ensures PageOk(Blank(), t, n)
  {
  }

  lemma NoChildren(pt: Pages, t: Tables, c: Node)
    requires Tree(pt, t) && c !in t && 0 < c.level <= 2
    ensures forall i: nat :: i < 512 ==> Child(c, i) !in t
  {
    forall i: nat | i < 512
      ensures Child(c, i) !in t
    {
      ParentOfChild(c, i);
      assert Child(c, i) in t ==> NodeOk(pt, t, Child(c, i));
    }
  }

  lemma AddKeeps(pt: Pages, t: Tables, n: Node, i: nat, p: nat)
    requires Tree(pt, t) && n in t && n.level > 0 && i < 512 && Child(n, i) !in t && NotTable(t, p)
    ensures t[n] in pt && i < |pt[t[n]]|
    ensures Tree(Added(pt, t, n, i, p), t[Child(n, i) := p])
  {
    assert NodeOk(pt, t, n);
    var c := Child(n, i);
    var pt', t' := Added(pt, t, n, i, p), t[c := p];
    ParentOfChild(n, i);
    forall m | m in t'
      ensures NodeOk(pt', t', m)
    {
      if m == c {
        if c.level > 0 { NoChildren(pt, t, c); }
        forall j: nat | c.level > 0 && j < 512
          ensures Child(c, j) !in t'
        {
        }
        PageBlank(t', c);
      } else {
        assert NodeOk(pt, t, m);
        if m == n { PageAdd(pt[t[n]], t, n, i, p); } else {
          assert Unshared(t, n);
          PageFrame(pt[t[m]], t, m, c, p);
        }
      }
    }
    forall m | m in t'
      ensures Unshared(t', m)
    {
      if m != c { assert Unshared(t, m); }
    }
  }

  lemma AddLeaf(pt: Pages, t: Tables, n: Node, i: nat, p: nat, v: nat)
    requires Tree(pt, t) && n in t && n.level > 0 && i < 512 && Child(n, i) !in t && NotTable(t, p)
    requires t[n] in pt && i < |pt[t[n]]|
    ensures Leaf(Added(pt, t, n, i, p), t[Child(n, i) := p], v) == Leaf(pt, t, v)
  {
    var m := NodeFor(0, v);
    if m in t {
      assert NodeOk(pt, t, m) && Unshared(t, n);
    }
  }

  // ---------- Changing a leaf ----------

  ghost function Stored(pt: Pages, t: Tables, v: nat, e: Pte): Pages
    requires NodeFor(0, v) in t && t[NodeFor(0, v)] in pt && |pt[t[NodeFor(0, v)]]| == 512
  {
    var p := t[NodeFor(0, v)];
    pt[p := pt[p][Index(0, v) := e]]
  }

  lemma StoreKeeps(pt: Pages, t: Tables, v: nat, e: Pte)
    requires Tree(pt, t) && NodeFor(0, v) in t
    ensures t[NodeFor(0, v)] in pt && |pt[t[NodeFor(0, v)]]| == 512 && Tree(Stored(pt, t, v, e), t)
  {
    var n := NodeFor(0, v);
    assert NodeOk(pt, t, n) && Unshared(t, n);
    var pt' := Stored(pt, t, v, e);
    forall m | m in t
      ensures NodeOk(pt', t, m)
    {
      assert NodeOk(pt, t, m);
    }
  }

  lemma StoreLeaf(pt: Pages, t: Tables, v: nat, e: Pte, w: nat)
    requires Tree(pt, t) && NodeFor(0, v) in t
    requires t[NodeFor(0, v)] in pt && |pt[t[NodeFor(0, v)]]| == 512
    ensures Leaf(Stored(pt, t, v, e), t, w) == if w == v then e else Leaf(pt, t, w)
  {
    var n := NodeFor(0, v);
    assert Unshared(t, n);
    SamePlace(v, w);
  }

  lemma SamePlace(v: nat, w: nat)
    ensures NodeFor(0, v) == NodeFor(0, w) && Index(0, v) == Index(0, w) <==> v == w
  {
  }

  /** A leaf table is there only if the tables above it are. */
  lemma PathExists(pt: Pages, t: Tables, v: nat)
    requires Tree(pt, t) && v < MAX_VPN
    ensures NodeFor(2, v) == Root && Root in t
    ensures NodeFor(0, v) in t ==> NodeFor(1, v) in t
  {
    ChildFor(1, v);
    ParentOfChild(NodeFor(1, v), Index(1, v));
    assert NodeFor(0, v) in t ==> NodeOk(pt, t, NodeFor(0, v));
  }

  // ---------- What tables cost ----------

  /** The tables on the way to the leaf of v, below the root. */
  function Path(v: nat): set<Node> { PathTo(0, v) }

  function PathTo(level: nat, v: nat): set<Node> {
    set l | level <= l < 2 :: NodeFor(l, v)
  }

  /** How many of them, down to a level, are not there yet. */
  function MissingTo(level: nat, keys: set<Node>, v: nat): nat {
    (if level <= 1 && NodeFor(1, v) !in keys then 1 else 0) + (if level == 0 && NodeFor(0, v) !in keys then 1 else 0)
  }

  function Missing(keys: set<Node>, v: nat): nat { MissingTo(0, keys, v) }

  // The tables there are, and the pages on the free list
  datatype Stock = Stock(tabs: set<Node>, room: int)

  /** What is left once page v has its tables. */
  function Pay(x: Stock, v: nat): Stock {
    Stock(x.tabs + Path(v), x.room - Missing(x.tabs, v))
  }

  /** What is left once m pages from page v on have their tables. */
  function PayAll(x: Stock, v: nat, m: nat): Stock {
    if m == 0 then x else Pay(PayAll(x, v, m - 1), v + m - 1)
  }

  /** y is what PayAll leaves; only a proof that names PayAll unfolds this. */
  ghost predicate Left(x: Stock, v: nat, m: nat, y: Stock) {
    forall k {:trigger PayAll(x, v, k)} :: k == m ==> y == PayAll(x, v, k)
  }

  lemma LeftMore(x: Stock, v: nat, m: nat, y: Stock)
    requires Left(x, v, m, y)
    ensures Left(x, v, m + 1, Pay(y, v + m))
  {
    assert PayAll(x, v, m + 1) == Pay(PayAll(x, v, m), v + m + 1 - 1);
  }

  lemma LeftNone(x: Stock, v: nat)
    ensures Left(x, v, 0, x)
  {
  }

  /** What is left once m pages from page v on are mapped to new pages. */
  function Spend(x: Stock, v: nat, m: nat): Stock {
    var y := PayAll(x, v, m);
    y.(room := y.room - m)
  }

  lemma PathIs(v: nat)
    ensures Path(v) == {NodeFor(1, v), NodeFor(0, v)}
  {
  }

  lemma AddSize(k: set<Node>, g: set<Node>, n: Node)
    requires k <= g
    ensures |g + {n} - k| == |g - k| + if n in g then 0 else 1
  {
    if n in g {
      assert g + {n} == g;
    } else {
      assert g + {n} - k == (g - k) + {n};
    }
  }

  lemma UnionSize(k: set<Node>, g: set<Node>, n: Node, m: Node)
    requires k <= g && n != m
    ensures |g + {n, m} - k| == |g - k| + (if n in g then 0 else 1) + (if m in g then 0 else 1)
  {
    AddSize(k, g, n);
    AddSize(k, g + {n}, m);
    assert g + {n, m} == g + {n} + {m};
  }

  lemma PayIs(k: set<Node>, g: Stock, v: nat)
    requires k <= g.tabs
    ensures k <= Pay(g, v).tabs && Pay(g, v).room == g.room + |g.tabs - k| - |Pay(g, v).tabs - k|
  {
    PathIs(v);
    UnionSize(k, g.tabs, NodeFor(1, v), NodeFor(0, v));
  }

  ghost predicate PaidOne(y: Stock, v: nat, z: Stock) {
    forall w {:trigger Pay(y, w)} :: w == v ==> z == Pay(y, w)
  }

  /** The stock before the last of m pages. */
  lemma LeftBefore(x: Stock, v: nat, m: nat, z: Stock) returns (y: Stock)
    requires m > 0 && Left(x, v, m, z)
    ensures Left(x, v, m - 1, y) && PaidOne(y, v + m - 1, z)
  {
    y := PayAll(x, v, m - 1);
    assert z == PayAll(x, v, m);
  }

  lemma PaidSizes(k: set<Node>, y: Stock, v: nat, z: Stock)
    requires PaidOne(y, v, z) && k <= y.tabs
    ensures k <= z.tabs && z.room == y.room + |y.tabs - k| - |z.tabs - k|
  {
    PayIs(k, y, v);
  }

  lemma {:induction false} LeftIs(x: Stock, v: nat, m: nat, z: Stock)
    requires Left(x, v, m, z)
    ensures x.tabs <= z.tabs && z.room == x.room - |z.tabs - x.tabs|
  {
    if m == 0 {
      assert z == PayAll(x, v, 0) && x.tabs - x.tabs == {};
    } else {
      var y := LeftBefore(x, v, m, z);
      LeftIs(x, v, m - 1, y);
      PaidSizes(x.tabs, y, v + m - 1, z);
    }
  }

  /** Each page costs itself, each new table one page. */
  lemma SpendIs(x: Stock, v: nat, m: nat)
    ensures var y := Spend(x, v, m); x.tabs <= y.tabs && y.room == x.room - m - |y.tabs - x.tabs|
  {
    LeftIs(x, v, m, PayAll(x, v, m));
  }

  lemma {:induction false} SpendGrows(x: Stock, v: nat, k: nat, m: nat)
    requires k <= m
    ensures Spend(x, v, m).room <= Spend(x, v, k).room
  {
    if k < m { SpendGrows(x, v, k, m - 1); }
  }

  /** The page may be taken before its tables. */
  lemma PayOne(x: Stock, v: nat)
    ensures PayAll(x.(room := x.room - 1), v, 1) == Spend(x, v, 1) && Spend(x, v, 1).room <= x.room - 1
    ensures Spend(x, v, 1) == Pay(x.(room := x.room - 1), v)
  {
    assert PayAll(x, v, 0) == x && PayAll(x.(room := x.room - 1), v, 0) == x.(room := x.room - 1);
  }

  ghost predicate Spent(x: Stock, v: nat, m: nat, y: Stock) { Left(x, v, m, y.(room := y.room + m)) }

  lemma SpentMore(x: Stock, v: nat, m: nat, y: Stock)
    requires Spent(x, v, m, y)
    ensures Spent(x, v, m + 1, Spend(y, v + m, 1))
  {
    LeftMore(x, v, m, y.(room := y.room + m));
    PayOne(y, v + m);
  }

  /** k is the most of the pages v to w - 1 that the free pages pay for, in this order. */
  ghost predicate Covers(x: Stock, v: nat, w: nat, k: nat) {
    v + k <= w && Spend(x, v, k).room >= 0 && (v + k < w ==> Spend(x, v, k + 1).room < 0)
  }

  lemma CoversWhen(x: Stock, v: nat, w: nat, k: nat, y: Stock, z: Stock)
    requires v + k <= w && Spent(x, v, k, y) && y.room >= 0
    requires v + k < w ==> Spent(x, v, k + 1, z) && z.room < 0
    ensures Covers(x, v, w, k)
  {
  }

  lemma CoversIff(x: Stock, v: nat, w: nat, k: nat)
    requires v <= w && Covers(x, v, w, k)
    ensures v + k == w <==> Spend(x, v, w - v).room >= 0
  {
    if v + k < w { SpendGrows(x, v, k + 1, w - v); }
  }

  ghost predicate IsTable(t: Tables, p: nat) { exists n :: n in t && t[n] == p }

  /** PGROUNDUP as a number of pages. */
  function PagesFor(sz: nat): nat { (sz + 4095) / 4096 }

  lemma PageBelow(v: nat, sz: nat)
    ensures v * 4096 < sz <==> v < PagesFor(sz)
  {
  }

  /** The pages that the valid leaves of a range map. */
  function LeafPages(pt: Pages, t: Tables, v: nat, n: nat): set<nat> {
    set w: nat | v <= w < v + n && Valid(Leaf(pt, t, w)) :: Leaf(pt, t, w).ppn
  }

  ghost predicate DistinctLeaves(pt: Pages, t: Tables, v: nat, n: nat) {
    forall w: nat, x: nat {:trigger Leaf(pt, t, w), Leaf(pt, t, x)} ::
      v <= w < x < v + n && Valid(Leaf(pt, t, w)) && Valid(Leaf(pt, t, x)) ==> Leaf(pt, t, w).ppn != Leaf(pt, t, x).ppn
  }

  ghost predicate Owned(pt: Pages, t: Tables, given: set<nat>, v: nat, n: nat) {
    && (forall w: nat {:trigger Leaf(pt, t, w)} ::
          v <= w < v + n && Valid(Leaf(pt, t, w)) ==> Leaf(pt, t, w).ppn in given)
    && DistinctLeaves(pt, t, v, n)
  }

  lemma OwnedFrame(pt: Pages, t: Tables, given: set<nat>, pt': Pages, t': Tables, given': set<nat>, v: nat, n: nat)
    requires Owned(pt, t, given, v, n) && given <= given'
    requires forall w: nat {:trigger Leaf(pt', t', w)} :: v <= w < v + n ==> Leaf(pt', t', w) == Leaf(pt, t, w)
    ensures Owned(pt', t', given', v, n)
  {
  }

  /** A range that owned its pages before, and the range after it that owns others. */
  lemma OwnedJoin(
      pt: Pages, t: Tables, before: set<nat>, pt': Pages, t': Tables, given: set<nat>, a: nat, b: nat)
    requires Owned(pt, t, before, 0, a) && Owned(pt', t', given, a, b) && before <= given
    requires forall w: nat {:trigger Leaf(pt', t', w)} :: w < a ==> Leaf(pt', t', w) == Leaf(pt, t, w)
    requires LeafPages(pt', t', a, b) !! before
    ensures Owned(pt', t', given, 0, a + b)
  {
    forall w: nat, x: nat {:trigger Leaf(pt', t', w), Leaf(pt', t', x)}
      | w < x < a + b && Valid(Leaf(pt', t', w)) && Valid(Leaf(pt', t', x))
      ensures Leaf(pt', t', w).ppn != Leaf(pt', t', x).ppn
    {
      assert x >= a ==> Leaf(pt', t', x).ppn in LeafPages(pt', t', a, b);
    }
  }

  ghost predicate MappedTo(
    pt: Pages, t: Tables, given: set<nat>, first: nat, k: nat, perm: bv10, pool: set<nat>, before: set<nat>)
  {
    && Owned(pt, t, given, first, k) && given == before + LeafPages(pt, t, first, k)
    && LeafPages(pt, t, first, k) !! before
    && forall w: nat {:trigger Leaf(pt, t, w)} ::
         first <= w < first + k ==> Leaf(pt, t, w).flags == perm | PTE_V && Leaf(pt, t, w).ppn in pool
  }

  lemma MappedNone(pt: Pages, t: Tables, given: set<nat>, first: nat, perm: bv10, pool: set<nat>)
    ensures MappedTo(pt, t, given, first, 0, perm, pool, given)
  {
    assert LeafPages(pt, t, first, 0) == {};
  }

  lemma MappedMore(
      pt: Pages, t: Tables, given: set<nat>, pt': Pages, t': Tables, given': set<nat>,
      first: nat, k: nat, perm: bv10, pool: set<nat>, before: set<nat>)
    requires MappedTo(pt, t, given, first, k, perm, pool, before)
    requires forall w: nat {:trigger Leaf(pt', t', w)} :: first <= w < first + k ==> Leaf(pt', t', w) == Leaf(pt, t, w)
    requires
      var e := Leaf(pt', t', first + k);
      e.flags == perm | PTE_V && e.ppn in pool && e.ppn !in given && given' == given + {e.ppn}
    ensures MappedTo(pt', t', given', first, k + 1, perm, pool, before)
  {
    ValidFlags(perm);
    LeafPagesNext(pt, t, pt', t', first, k);
  }

  lemma MappedSame(
      pt: Pages, t: Tables, given: set<nat>, pt': Pages, t': Tables,
      first: nat, k: nat, perm: bv10, pool: set<nat>, before: set<nat>)
    requires MappedTo(pt, t, given, first, k, perm, pool, before)
    requires forall w: nat {:trigger Leaf(pt', t', w)} :: first <= w < first + k ==> Leaf(pt', t', w) == Leaf(pt, t, w)
    ensures MappedTo(pt', t', given, first, k, perm, pool, before)
  {
    LeafPagesSame(pt, t, pt', t', first, k);
  }

  /** The first a pages of a range, once the pages of the rest are given back. */
  lemma OwnedFirst(pt: Pages, t: Tables, given: set<nat>, pt': Pages, v: nat, a: nat, b: nat)
    requires Owned(pt, t, given, v, a + b)
    requires forall w: nat {:trigger Leaf(pt', t, w)} :: v <= w < v + a ==> Leaf(pt', t, w) == Leaf(pt, t, w)
    ensures Owned(pt', t, given - LeafPages(pt, t, v + a, b), v, a)
  {
    forall w: nat {:trigger Leaf(pt', t, w)} | v <= w < v + a && Valid(Leaf(pt', t, w))
      ensures Leaf(pt', t, w).ppn !in LeafPages(pt, t, v + a, b)
    {
      assert Leaf(pt', t, w) == Leaf(pt, t, w);
    }
  }

  /** One leaf of the range changes. */
  lemma OwnedSet(
      pt: Pages, t: Tables, given: set<nat>, pt': Pages, t': Tables, given': set<nat>, v: nat, n: nat, w: nat)
    requires Owned(pt, t, given, v, n) && v <= w < v + n
    requires forall x: nat {:trigger Leaf(pt', t', x)} :: x != w ==> Leaf(pt', t', x) == Leaf(pt, t, x)
    requires Valid(Leaf(pt', t', w)) ==> Leaf(pt', t', w).ppn in given' && Leaf(pt', t', w).ppn !in given
    requires forall p :: p in given && !(Valid(Leaf(pt, t, w)) && p == Leaf(pt, t, w).ppn) ==> p in given'
    ensures Owned(pt', t', given', v, n)
  {
    forall x: nat {:trigger Leaf(pt', t', x)} | v <= x < v + n && Valid(Leaf(pt', t', x))
      ensures Leaf(pt', t', x).ppn in given' && (x != w ==> Leaf(pt', t', x).ppn in given)
    {
      assert x != w ==> Leaf(pt', t', x) == Leaf(pt, t, x);
      assert x < w && Valid(Leaf(pt, t, w)) && Valid(Leaf(pt, t, x)) ==> Leaf(pt, t, x).ppn != Leaf(pt, t, w).ppn;
    }
  }

  lemma NextIsDistinct(pt: Pages, t: Tables, v: nat, n: nat, k: nat)
    requires DistinctLeaves(pt, t, v, n) && k < n && Valid(Leaf(pt, t, v + k))
    ensures Leaf(pt, t, v + k).ppn !in LeafPages(pt, t, v, k)
  {
  }

  /** The swap slots that the leaves of a range name: entries that are set but not valid. */
  function LeafSlots(pt: Pages, t: Tables, v: nat, n: nat): set<nat> {
    set w: nat | v <= w < v + n && !Valid(Leaf(pt, t, w)) && Leaf(pt, t, w) != Zero :: Leaf(pt, t, w).ppn
  }

  lemma LeavesNext(pt: Pages, t: Tables, v: nat, n: nat)
    ensures
      var e := Leaf(pt, t, v + n);
      && LeafPages(pt, t, v, n + 1) == LeafPages(pt, t, v, n) + (if Valid(e) then {e.ppn} else {})
      && LeafSlots(pt, t, v, n + 1) == LeafSlots(pt, t, v, n) + (if !Valid(e) && e != Zero then {e.ppn} else {})
  {
  }

  lemma LeafPagesNext(pt: Pages, t: Tables, pt': Pages, t': Tables, v: nat, n: nat)
    requires forall w: nat {:trigger Leaf(pt', t', w)} :: v <= w < v + n ==> Leaf(pt', t', w) == Leaf(pt, t, w)
    requires Valid(Leaf(pt', t', v + n))
    ensures LeafPages(pt', t', v, n + 1) == LeafPages(pt, t, v, n) + {Leaf(pt', t', v + n).ppn}
  {
    var a, b := LeafPages(pt, t, v, n), LeafPages(pt', t', v, n + 1);
    forall x | x in a
      ensures x in b
    {
      var w: nat :| v <= w < v + n && Valid(Leaf(pt, t, w)) && Leaf(pt, t, w).ppn == x;
      assert Leaf(pt', t', w) == Leaf(pt, t, w);
    }
  }

  lemma LeafPagesSame(pt: Pages, t: Tables, pt': Pages, t': Tables, v: nat, n: nat)
    requires forall w: nat {:trigger Leaf(pt', t', w)} :: v <= w < v + n ==> Leaf(pt', t', w) == Leaf(pt, t, w)
    ensures LeafPages(pt', t', v, n) == LeafPages(pt, t, v, n)
  {
    var a, b := LeafPages(pt, t, v, n), LeafPages(pt', t', v, n);
    forall x | x in a
      ensures x in b
    {
      var w: nat :| v <= w < v + n && Valid(Leaf(pt, t, w)) && Leaf(pt, t, w).ppn == x;
      assert Leaf(pt', t', w) == Leaf(pt, t, w);
    }
  }

  // ---------- Subtrees ----------

  /** m is n or a table below it. */
  predicate Below(n: Node, m: Node) {
    || m == n
    || (m.level + 1 == n.level && m.prefix / 512 == n.prefix)
    || (m.level + 2 == n.level && m.prefix / 512 / 512 == n.prefix)
  }

  /** The entry of n under which m lies. */
  function Branch(n: Node, m: Node): nat {
    if m.level + 1 == n.level then m.prefix % 512 else m.prefix / 512 % 512
  }

  lemma BranchChild(n: Node, m: Node, i: nat)
    requires 0 < n.level <= 2 && i < 512
    ensures Below(Child(n, i), m) <==> m != n && Below(n, m) && Branch(n, m) == i
  {
  }

  /** The tables without the first i subtrees below n. */
  function Trimmed(t: Tables, n: Node, i: nat): Tables {
    map m | m in t && (m == n || !Below(n, m) || Branch(n, m) >= i) :: t[m]
  }

  function Without(t: Tables, n: Node): Tables {
    map m | m in t && !Below(n, m) :: t[m]
  }

  lemma TrimStep(t: Tables, n: Node, i: nat)
    requires 0 < n.level <= 2 && i < 512
    ensures Without(Trimmed(t, n, i), Child(n, i)) == Trimmed(t, n, i + 1)
  {
  }

  lemma TrimAll(t: Tables, n: Node)
    requires n.level <= 2
    ensures Trimmed(t, n, 512) - {n} == Without(t, n)
    ensures Trimmed(t, n, 0) == t
  {
  }

  /** Table m of the tree under n is well formed and, at the lowest level, maps nothing. */
  ghost predicate TableOk(pt: Pages, t: Tables, n: Node, m: Node) {
    && m in t && m.level <= 2 && t[m] in pt && PageOk(pt[t[m]], t, m)
    && (m.level == 0 ==> forall i :: 0 <= i < 512 ==> !Valid(pt[t[m]][i]))
    && (m == n || Parent(m) in t)
  }

  ghost predicate SubOk(pt: Pages, t: Tables, n: Node) {
    && (forall m {:trigger TableOk(pt, t, n, m)} :: m in t && Below(n, m) ==> TableOk(pt, t, n, m))
    && (forall m {:trigger Unshared(t, m)} :: m in t ==> Unshared(t, m))
  }

  /** The pages of the tables that left. */
  function Lost(t: Tables, u: Tables): set<nat> {
    set m | m in t && m !in u :: t[m]
  }

  lemma SubChild(pt: Pages, t: Tables, n: Node, i: nat)
    requires SubOk(pt, t, n) && 0 < n.level <= 2 && i < 512
    ensures SubOk(pt, t, Child(n, i))
  {
    var c := Child(n, i);
    forall m | m in t && Below(c, m)
      ensures TableOk(pt, t, c, m)
    {
      BranchChild(n, m, i);
      assert TableOk(pt, t, n, m);
    }
  }

  /** An entry that points to no table has nothing below it. */
  lemma NothingBelow(pt: Pages, t: Tables, n: Node, i: nat)
    requires SubOk(pt, t, n) && 0 < n.level <= 2 && i < 512 && Child(n, i) !in t
    ensures Without(t, Child(n, i)) == t
  {
    var c := Child(n, i);
    forall m | m in t
      ensures !Below(c, m)
    {
      BranchChild(n, m, i);
      if Below(n, m) { assert TableOk(pt, t, n, m); }
    }
  }

  /** Page contents that the loss of the subtree under c does not concern. */
  lemma PageWithout(page: seq<Pte>, t: Tables, m: Node, c: Node)
    requires PageOk(page, t, m) && m.level <= 2 && !Below(c, m) && Parent(c) != m && c.level < 2
    ensures PageOk(page, Without(t, c), m)
  {
    var u := Without(t, c);
    if m.level > 0 {
      forall k: nat | k < 512
        ensures EntryOk(page, u, m, k)
      {
        assert EntryOk(page, t, m, k);
        ParentOfChild(m, k);
      }
    }
  }

  lemma PageCleared(page: seq<Pte>, t: Tables, n: Node, i: nat)
    requires PageOk(page, t, n) && 0 < n.level <= 2 && i < 512
    ensures PageOk(page[i := Zero], Without(t, Child(n, i)), n)
  {
    var c := Child(n, i);
    var u, page' := Without(t, c), page[i := Zero];
    ParentOfChild(n, i);
    forall k: nat | k < 512
      ensures EntryOk(page', u, n, k)
    {
      assert EntryOk(page, t, n, k);
      BranchChild(n, Child(n, k), i);
      ParentOfChild(n, k);
    }
  }

  /** After the subtree at entry i is freed and the entry cleared, the rest is still a tree. */
  lemma SubAfter(pt: Pages, t: Tables, n: Node, i: nat, pt': Pages)
    requires SubOk(pt, t, n) && 0 < n.level <= 2 && i < 512 && n in t && t[n] in pt && |pt[t[n]]| == 512
    requires t[n] in pt' && pt'[t[n]] == pt[t[n]][i := Zero]
    requires forall q :: q in pt && q !in Lost(t, Without(t, Child(n, i))) && q != t[n] ==> q in pt' && pt'[q] == pt[q]
    ensures SubOk(pt', Without(t, Child(n, i)), n)
  {
    var c := Child(n, i);
    var u := Without(t, c);
    ParentOfChild(n, i);
    forall m | m in u && Below(n, m)
      ensures TableOk(pt', u, n, m)
    {
      assert TableOk(pt, t, n, m) && Unshared(t, m);
      if m == n {
        PageCleared(pt[t[n]], t, n, i);
        BranchChild(n, n, i);
      } else {
        PageWithout(pt[t[m]], t, m, c);
        assert Unshared(t, n);
        assert t[m] !in Lost(t, u);
        BranchChild(n, Parent(m), i);
        BranchChild(n, m, i);
      }
    }
    forall m | m in u
      ensures Unshared(u, m)
    {
      assert Unshared(t, m);
    }
  }

  /** With no leaf mapped, the whole tree is ready to be freed. */
  lemma SubFromTree(pt: Pages, t: Tables)
    requires Tree(pt, t) && forall v: nat {:trigger Leaf(pt, t, v)} :: !Valid(Leaf(pt, t, v))
    ensures SubOk(pt, t, Root) && Without(t, Root) == map[]
  {
    forall m | m in t
      ensures TableOk(pt, t, Root, m) && Below(Root, m)
    {
      assert NodeOk(pt, t, m);
      if m.level == 0 {
        forall i: nat | i < 512
          ensures !Valid(pt[t[m]][i])
        {
          assert NodeFor(0, m.prefix * 512 + i) == m;
          assert !Valid(Leaf(pt, t, m.prefix * 512 + i));
        }
        assert NodeOk(pt, t, Parent(m)) && NodeOk(pt, t, Parent(Parent(m)));
      }
      if m.level == 1 { assert NodeOk(pt, t, Parent(m)); }
    }
  }

  // ---------- The code ----------

  datatype Outcome = Ok | Fail | Panic

  // An earlier state
  datatype Memo = Memo(pt: Pages, t: Tables, free: set<nat>, given: set<nat>)

  /** What unmapping the first k pages of a range from state m on has given back. */
  ghost predicate Given(m: Memo, v: nat, k: nat, doFree: bool, free: set<nat>, given: set<nat>, slots: set<nat>) {
    && slots == LeafSlots(m.pt, m.t, v, k)
    && free == (if doFree then m.free + LeafPages(m.pt, m.t, v, k) else m.free)
    && given == (if doFree then m.given - LeafPages(m.pt, m.t, v, k) else m.given)
  }

  lemma GivenNext(m: Memo, v: nat, k: nat, doFree: bool, free: set<nat>, given: set<nat>, slots: set<nat>)
    requires Given(m, v, k, doFree, free, given, slots)
    ensures
      var e := Leaf(m.pt, m.t, v + k);
      var x := if doFree && Valid(e) then {e.ppn} else {};
      Given(m, v, k + 1, doFree, free + x, given - x, slots + if !Valid(e) && e != Zero then {e.ppn} else {})
  {
    LeavesNext(m.pt, m.t, v, k);
  }

  class AddressSpace {
    var pt: Pages
    var free: set<nat>         // pages on the kernel's free list
    const root: nat
    ghost const all: set<nat>  // the pages of the kernel's pool: on the list, tables, or given out
    ghost var given: set<nat>
    ghost var t: Tables
    ghost var stock: Stock     // t.Keys and |free|

    ghost predicate Good()
      reads this
    {
      Tree(pt, t) && t[Root] == root && Ledger() && Counted()
    }

    /** Every page of the pool is on the free list, given out or a table, and only one of these. */
    ghost predicate Ledger()
      reads this`free, this`given, this`t
    {
      && (forall n :: n in t ==> t[n] !in free && t[n] !in given) && (forall p :: p in free ==> p !in given)
      && (forall p {:trigger p in all} :: p in all <==> p in free || p in given || IsTable(t, p))
    }

    ghost predicate Counted()
      reads this`free, this`t, this`stock
    {
      && (forall s {:trigger |s|} :: s == free ==> |s| == stock.room)
      && (forall u: Tables {:trigger u.Keys} :: u == t ==> u.Keys == stock.tabs)
    }

    lemma InTabs(n: Node)
      requires Counted()
      ensures n in stock.tabs <==> n in t
    {
      assert t.Keys == stock.tabs;
    }

    ghost function At(v: nat): Pte
      reads this`pt, this`t
    {
      Leaf(pt, t, v)
    }

    /** uvmcreate: one blank table taken off a list of free pages. */
    constructor (pages: set<nat>, p: nat)
      requires p in pages
      ensures Good() && root == p && free == pages - {p} && all == pages && given == {}
      ensures Process(0) && stock == Stock({Root}, |free|) && forall v: nat {:trigger At(v)} :: At(v) == Zero
    {
      pt, free, root, t := map[p := Blank()], pages - {p}, p, map[Root := p];
      all, given, stock := pages, {}, Stock({Root}, |pages - {p}|);
      new;
      PageBlank(t, Root);
      assert NodeOk(pt, t, Root) && Unshared(t, Root);
      assert t[Root] == p;
    }

    method Kalloc() returns (r: Option<nat>)
      requires Ledger() && Counted()
      modifies this`free, this`given, this`stock
      ensures Ledger() && Counted() && (r.None? <==> old(stock.room) <= 0)
      ensures r.None? ==> free == old(free) == {} && stock == old(stock) && given == old(given)
      ensures r.Some? ==>
        && r.value in old(free) && free == old(free) - {r.value} && given == old(given) + {r.value}
        && stock == old(stock).(room := old(stock.room) - 1)
    {
      assert |free| == stock.room;
      if free == {} { return None; }
      var p :| p in free;
      free, given, stock := free - {p}, given + {p}, stock.(room := stock.room - 1);
      assert |free| == stock.room;
      return Some(p);
    }

    /** Returning a page that is on the free list already would be a double free. */
    method Kfree(p: nat)
      requires p !in free
      modifies this`free, this`given, this`stock
      ensures free == old(free) + {p} && given == old(given) - {p} && stock == old(stock).(room := old(stock.room) + 1)
      ensures old(Ledger() && Counted()) && p in old(given) ==> Ledger() && Counted()
    {
      assert Counted() ==> |free| == stock.room;
      free, given, stock := free + {p}, given - {p}, stock.(room := stock.room + 1);
    }

    /**
     walk(va, alloc): the place of the leaf entry of page v, as table page and
     index. With alloc it adds the missing tables if the free pages suffice, which
     changes no leaf.
     */
    method Walk(v: nat, alloc: bool) returns (r: Option<nat>)
      requires Good() && v < MAX_VPN
      modifies this`pt, this`free, this`t, this`stock, this`given
      ensures Good() && free <= old(free) && given == old(given)
      ensures forall w {:trigger At(w)} :: At(w) == old(At(w))
      ensures r.Some? <==> NodeFor(0, v) in t
      ensures r.Some? ==> r.value == t[NodeFor(0, v)]
      ensures !alloc ==> unchanged(this)
      ensures alloc ==> (r.Some? <==> Pay(old(stock), v).room >= 0)
      ensures r.Some? ==> stock == Pay(old(stock), v)
    {
      PathExists(pt, t, v);
      InTabs(NodeFor(0, v));
      InTabs(NodeFor(1, v));
      StockRoom();
      var p := root;
      var level := 2;
      ghost var x := stock;
      while level > 0
        invariant Good() && 0 <= level <= 2 && free <= old(free) && given == old(given)
        invariant forall w {:trigger At(w)} :: At(w) == old(At(w))
        invariant NodeFor(level, v) in t && p == t[NodeFor(level, v)]
        invariant !alloc ==> unchanged(this)
        invariant stock.tabs == x.tabs + PathTo(level, v) && stock.room + MissingTo(level, x.tabs, v) == x.room
      {
        PathExists(pt, t, v);
        InTabs(NodeFor(0, v));
        InTabs(NodeFor(1, v));
        StockRoom();
        var q := Descend(p, level, v, alloc);
        if q.None? { return None; }
        p := q.value;
        level := level - 1;
      }
      StockRoom();
      return Some(p);
    }

    lemma StockRoom()
      requires Counted()
      ensures stock.room >= 0
    {
      assert |free| == stock.room;
    }

    /** The loop body of walk: the next table on the path. */
    method Descend(p: nat, level: nat, v: nat, alloc: bool) returns (q: Option<nat>)
      requires Good() && v < MAX_VPN && 1 <= level <= 2 && NodeFor(level, v) in t && t[NodeFor(level, v)] == p
      modifies this`pt, this`free, this`t, this`stock, this`given
      ensures Good() && free <= old(free) && given == old(given)
      ensures forall w {:trigger At(w)} :: At(w) == old(At(w))
      ensures !alloc || NodeFor(level - 1, v) in old(t) || q.None? ==> unchanged(this)
      ensures q.Some? <==> NodeFor(level - 1, v) in old(t) || (alloc && old(stock.room) > 0)
      ensures q.Some? ==> t == old(t)[NodeFor(level - 1, v) := q.value]
      ensures q.Some? ==> stock.tabs == old(stock.tabs) + {NodeFor(level - 1, v)}
      ensures stock.room == old(stock.room) - if NodeFor(level - 1, v) in old(t) || q.None? then 0 else 1
    {
      ChildFor(level, v);
      InTabs(NodeFor(level - 1, v));
      assert NodeOk(pt, t, NodeFor(level, v));
      assert EntryOk(pt[p], t, NodeFor(level, v), Index(level, v));
      var e := pt[p][Index(level, v)];
      if Valid(e) {
        q := Some(e.ppn);
      } else {
        if !alloc { return None; }
        q := Kalloc();
        if q.Some? {
          AddTable(p, level, v, q.value);
        }
      }
    }

    /** memset of a new page and the entry that points to it. */
    method AddTable(p: nat, level: nat, v: nat, q: nat)
      requires Good() && 1 <= level <= 2 && v < MAX_VPN && q in given
      requires NodeFor(level, v) in t && t[NodeFor(level, v)] == p && NodeFor(level - 1, v) !in t
      modifies this`pt, this`t, this`stock, this`given
      ensures Good() && t == old(t)[NodeFor(level - 1, v) := q] && given == old(given) - {q}
      ensures stock == old(stock).(tabs := old(stock.tabs) + {NodeFor(level - 1, v)})
      ensures forall w {:trigger At(w)} :: At(w) == old(At(w))
    {
      ChildFor(level, v);
      ghost var n, i := NodeFor(level, v), Index(level, v);
      AddKeeps(pt, t, n, i, q);
      forall w
        ensures Leaf(Added(pt, t, n, i, q), t[Child(n, i) := q], w) == Leaf(pt, t, w)
      {
        AddLeaf(pt, t, n, i, q, w);
      }
      pt := pt[q := Blank()][p := pt[p][Index(level, v) := Pte(q, PTE_V)]];
      EnterTable(Child(n, i), q);
    }

    ghost method EnterTable(n: Node, q: nat)
      requires Ledger() && Counted() && n !in t && q in given
      modifies this`t, this`stock, this`given
      ensures Ledger() && Counted() && t == old(t)[n := q] && given == old(given) - {q}
      ensures stock == old(stock).(tabs := old(stock.tabs) + {n})
    {
      assert t.Keys == stock.tabs;
      ghost var was := t;
      t, stock, given := t[n := q], stock.(tabs := stock.tabs + {n}), given - {q};
      assert t.Keys == stock.tabs;
      forall p
        ensures IsTable(t, p) <==> IsTable(was, p) || p == q
      {
        assert t[n] == q;
        if m :| m in was && was[m] == p { assert t[m] == p; }
      }
    }

    /** *pte = e, with p the leaf table of v. */
    method SetLeaf(p: nat, v: nat, e: Pte)
      requires Good() && NodeFor(0, v) in t && t[NodeFor(0, v)] == p
      modifies this`pt
      ensures Good() && At(v) == e
      ensures forall w {:trigger At(w)} :: w != v ==> At(w) == old(At(w))
    {
      StoreKeeps(pt, t, v, e);
      forall w
        ensures Leaf(Stored(pt, t, v, e), t, w) == if w == v then e else Leaf(pt, t, w)
      {
        StoreLeaf(pt, t, v, e, w);
      }
      pt := pt[p := pt[p][Index(0, v) := e]];
    }

    /** *pte, with p the leaf table of v. */
    method GetLeaf(p: nat, v: nat) returns (e: Pte)
      requires Good() && NodeFor(0, v) in t && t[NodeFor(0, v)] == p
      ensures e == At(v)
    {
      assert NodeOk(pt, t, NodeFor(0, v));
      e := pt[p][Index(0, v)];
    }

    /**
     mappages for n > 0 pages from page v on. Ok maps exactly the range; Fail
     leaves a mapped prefix, when the free pages do not suffice for the next table;
     Panic is a remap.
     */
    method MapPages(v: nat, n: nat, ppn: nat, perm: bv10) returns (r: Outcome, done: nat)
      requires Good() && n > 0 && v + n <= MAX_VPN
      modifies this
      ensures Good() && done <= n && (r.Ok? <==> done == n) && free <= old(free) && given == old(given)
      ensures forall w: nat {:trigger At(w)} ::
        At(w) == if v <= w < v + done then Pte(ppn + (w - v), perm | PTE_V) else old(At(w))
      ensures forall w: nat {:trigger old(At(w))} :: v <= w < v + done ==> !Valid(old(At(w)))
      ensures r.Fail? ==> PayAll(old(stock), v, done + 1).room < 0
      ensures r.Panic? ==> PayAll(old(stock), v, done + 1).room >= 0 && Valid(old(At(v + done)))
      ensures r.Ok? ==> stock == PayAll(old(stock), v, n)
    {
      ghost var y;
      r, done, y := MapLoop(v, n, ppn, perm);
    }

    /** The loop of mappages; y is what the page it ended at would leave. */
    method MapLoop(v: nat, n: nat, ppn: nat, perm: bv10) returns (r: Outcome, done: nat, ghost y: Stock)
      requires Good() && n > 0 && v + n <= MAX_VPN
      modifies this
      ensures Good() && done <= n && (r.Ok? <==> done == n) && free <= old(free) && given == old(given)
      ensures forall w: nat {:trigger At(w)} ::
        At(w) == if v <= w < v + done then Pte(ppn + (w - v), perm | PTE_V) else old(At(w))
      ensures forall w: nat {:trigger old(At(w))} :: v <= w < v + done ==> !Valid(old(At(w)))
      ensures !r.Ok? ==> Left(old(stock), v, done + 1, y) && (r.Fail? <==> y.room < 0)
      ensures r.Panic? ==> Valid(old(At(v + done)))
      ensures r.Ok? ==> Left(old(stock), v, n, stock)
    {
      done := 0;
      ghost var x := stock;
      y := stock;
      LeftNone(x, v);
      while true
        invariant Good() && done < n && free <= old(free) && given == old(given)
        invariant Left(x, v, done, stock)
        invariant forall w: nat {:trigger At(w)} ::
          At(w) == if v <= w < v + done then Pte(ppn + (w - v), perm | PTE_V) else old(At(w))
        invariant forall w: nat {:trigger old(At(w))} :: v <= w < v + done ==> !Valid(old(At(w)))
        decreases n - done
      {
        r, y := MapNext(v, done, ppn, perm, x);
        if !r.Ok? { return; }
        done := done + 1;
        if done == n { return; }
      }
    }

    method MapNext(v: nat, k: nat, ppn: nat, perm: bv10, ghost x: Stock) returns (r: Outcome, ghost y: Stock)
      requires Good() && v + k < MAX_VPN && Left(x, v, k, stock)
      modifies this
      ensures Good() && free <= old(free) && given == old(given)
      ensures forall w: nat {:trigger At(w)} :: w != v + k ==> At(w) == old(At(w))
      ensures At(v + k) == if r.Ok? then Pte(ppn + k, perm | PTE_V) else old(At(v + k))
      ensures Left(x, v, k + 1, y) && (r.Fail? <==> y.room < 0)
      ensures !r.Fail? ==> (r.Panic? <==> Valid(old(At(v + k)))) && stock == y
    {
      y := Pay(stock, v + k);
      LeftMore(x, v, k, stock);
      r := MapOne(v + k, ppn + k, perm);
    }

    /** The loop body of mappages. */
    method MapOne(v: nat, ppn: nat, perm: bv10) returns (r: Outcome)
      requires Good() && v < MAX_VPN
      modifies this
      ensures Good() && free <= old(free) && given == old(given)
      ensures forall w: nat {:trigger At(w)} :: w != v ==> At(w) == old(At(w))
      ensures At(v) == if r.Ok? then Pte(ppn, perm | PTE_V) else old(At(v))
      ensures r.Fail? <==> Pay(old(stock), v).room < 0
      ensures !r.Fail? ==> (r.Panic? <==> Valid(old(At(v)))) && stock == Pay(old(stock), v)
    {
      var p := Walk(v, true);
      if p.None? { return Fail; }
      var e := GetLeaf(p.value, v);
      if Valid(e) { return Panic; }
      SetLeaf(p.value, v, Pte(ppn, perm | PTE_V));
      return Ok;
    }

    /** The page numbers held by valid leaves of the range are distinct pages given out. */
    ghost predicate OwnedRange(v: nat, n: nat)
      reads this`pt, this`t, this`given
    {
      Owned(pt, t, given, v, n)
    }

    /** The pages that uvmunmap gives back for a range. */
    ghost function RangePages(v: nat, n: nat): set<nat>
      reads this`pt, this`t
    {
      LeafPages(pt, t, v, n)
    }

    /** The swap slots that uvmunmap gives back. */
    ghost function RangeSlots(v: nat, n: nat): set<nat>
      reads this`pt, this`t
    {
      LeafSlots(pt, t, v, n)
    }

    /** The loop body of uvmunmap for page v. */
    method UnmapOne(v: nat, doFree: bool) returns (slots: set<nat>)
      requires Good() && v < MAX_VPN && (doFree && Valid(At(v)) ==> At(v).ppn in given)
      modifies this
      ensures Good() && t == old(t) && stock.tabs == old(stock.tabs) && At(v) == Zero
      ensures forall w: nat {:trigger At(w)} :: w != v ==> At(w) == old(At(w))
      ensures free == old(free) + if doFree && Valid(old(At(v))) then {old(At(v)).ppn} else {}
      ensures given == old(given) - if doFree && Valid(old(At(v))) then {old(At(v)).ppn} else {}
      ensures slots == if !Valid(old(At(v))) && old(At(v)) != Zero then {old(At(v)).ppn} else {}
    {
      slots := {};
      ghost var e0 := At(v);
      var p := Walk(v, false);
      if p.None? { return; }
      var e := GetLeaf(p.value, v);
      if !Valid(e) {
        if e != Zero {
          slots := {e.ppn};
          SetLeaf(p.value, v, Zero);
        }
        return;
      }
      if doFree {
        Kfree(e.ppn);
      }
      SetLeaf(p.value, v, Zero);
    }

    /** uvmunmap of n pages from page v on; `slots` are the arguments of swap_free. */
    method Unmap(v: nat, n: nat, doFree: bool) returns (slots: set<nat>)
      requires Good() && v + n <= MAX_VPN && (doFree ==> OwnedRange(v, n))
      modifies this
      ensures Good() && t == old(t) && stock.tabs == old(stock.tabs)
      ensures forall w: nat {:trigger At(w)} :: At(w) == if v <= w < v + n then Zero else old(At(w))
      ensures free == if doFree then old(free + RangePages(v, n)) else old(free)
      ensures given == if doFree then old(given - RangePages(v, n)) else old(given)
      ensures slots == old(RangeSlots(v, n))
    {
      slots := {};
      ghost var m := Memo(pt, t, free, given);
      for k := 0 to n
        invariant Good() && stock.tabs == old(stock.tabs) && Undone(v, k, doFree, m, slots)
      {
        assert Leaf(m.pt, m.t, v + k) == old(At(v + k));
        if doFree && Valid(Leaf(m.pt, m.t, v + k)) { NextIsDistinct(m.pt, m.t, v, n, k); }
        slots := UnmapNext(v, k, doFree, m, slots);
      }
    }

    /** The first k pages of the range are unmapped, since memo m. */
    ghost predicate Undone(v: nat, k: nat, doFree: bool, m: Memo, slots: set<nat>)
      reads this`pt, this`t, this`free, this`given
    {
      && t == m.t && Given(m, v, k, doFree, free, given, slots)
      && (forall w: nat {:trigger At(w)} :: At(w) == if v <= w < v + k then Zero else Leaf(m.pt, m.t, w))
    }

    method UnmapNext(v: nat, k: nat, doFree: bool, ghost m: Memo, slots: set<nat>) returns (slots': set<nat>)
      requires Good() && v + k < MAX_VPN && Undone(v, k, doFree, m, slots)
      requires doFree && Valid(Leaf(m.pt, m.t, v + k)) ==>
        Leaf(m.pt, m.t, v + k).ppn in m.given && Leaf(m.pt, m.t, v + k).ppn !in LeafPages(m.pt, m.t, v, k)
      modifies this
      ensures Good() && stock.tabs == old(stock.tabs) && Undone(v, k + 1, doFree, m, slots')
    {
      assert At(v + k) == Leaf(m.pt, m.t, v + k);
      ghost var f, h := free, given;
      var more := UnmapOne(v + k, doFree);
      slots' := slots + more;
      GivenNext(m, v, k, doFree, f, h, slots);
    }

    /** kalloc and mappages for one page of uvmalloc: it fails exactly if the free pages do not suffice. */
    method AllocOne(v: nat, perm: bv10) returns (ok: bool)
      requires Good() && v < MAX_VPN && !Valid(At(v))
      modifies this
      ensures Good() && free <= old(free)
      ensures forall w: nat {:trigger At(w)} :: w != v ==> At(w) == old(At(w))
      ensures ok ==> At(v).flags == perm | PTE_V && At(v).ppn in old(free)
      ensures ok ==> At(v).ppn !in old(given) && given == old(given) + {At(v).ppn}
      ensures !ok ==> At(v) == old(At(v)) && given == old(given)
      ensures ok <==> Spend(old(stock), v, 1).room >= 0
      ensures ok ==> stock == Spend(old(stock), v, 1)
    {
      var mem := Kalloc();
      PayOne(old(stock), v);
      if mem.None? { return false; }
      var r, done := MapPages(v, 1, mem.value, perm);
      if !r.Ok? {
        Kfree(mem.value);
        return false;
      }
      StockRoom();
      return true;
    }

    /** uvmdealloc: shrink from oldsz to newsz bytes. */
    method Dealloc(oldsz: nat, newsz: nat) returns (sz: nat)
      requires Good() && PagesFor(oldsz) <= MAX_VPN
      requires newsz < oldsz ==> OwnedRange(PagesFor(newsz), PagesFor(oldsz) - PagesFor(newsz))
      modifies this
      ensures Good() && t == old(t) && stock.tabs == old(stock.tabs) && sz == if newsz >= oldsz then oldsz else newsz
      ensures newsz >= oldsz ==> unchanged(this)
      ensures newsz < oldsz ==>
        var v, n := PagesFor(newsz), PagesFor(oldsz) - PagesFor(newsz);
        && (forall w: nat {:trigger At(w)} :: At(w) == if v <= w < v + n then Zero else old(At(w)))
        && free == old(free + RangePages(v, n)) && given == old(given - RangePages(v, n))
    {
      if newsz >= oldsz { return oldsz; }
      if PagesFor(newsz) < PagesFor(oldsz) {
        var _ := Unmap(PagesFor(newsz), PagesFor(oldsz) - PagesFor(newsz), true);
      }
      return newsz;
    }

    /** k pages from page `first` on are mapped to distinct pages, which were in pool and are given out since. */
    ghost predicate Mapped(first: nat, k: nat, perm: bv10, pool: set<nat>, before: set<nat>)
      reads this`pt, this`t, this`free, this`given
    {
      free <= pool && MappedTo(pt, t, given, first, k, perm, pool, before)
    }

    /** One round of uvmalloc's loop up to the error test. */
    method AllocNext(first: nat, k: nat, perm: bv10, ghost pool: set<nat>, ghost before: set<nat>, ghost x: Stock)
      returns (ok: bool, ghost y: Stock)
      requires Good() && first + k < MAX_VPN && !Valid(At(first + k)) && Mapped(first, k, perm, pool, before)
      requires Spent(x, first, k, stock)
      modifies this
      ensures Good()
      ensures forall w: nat {:trigger At(w)} :: w != first + k ==> At(w) == old(At(w))
      ensures Mapped(first, if ok then k + 1 else k, perm, pool, before)
      ensures !ok ==> At(first + k) == old(At(first + k))
      ensures Spent(x, first, k + 1, y) && (ok <==> y.room >= 0) && (ok ==> stock == y)
    {
      y := Spend(stock, first + k, 1);
      SpentMore(x, first, k, stock);
      ghost var m := Memo(pt, t, free, given);
      ok := AllocOne(first + k, perm);
      assert forall w: nat {:trigger Leaf(pt, t, w)} :: first <= w < first + k ==> At(w) == Leaf(m.pt, m.t, w);
      if ok {
        MappedMore(m.pt, m.t, m.given, pt, t, given, first, k, perm, pool, before);
      } else {
        MappedSame(m.pt, m.t, given, pt, t, first, k, perm, pool, before);
      }
    }

    /** The loop of uvmalloc: it gets as many pages as the free list pays for. */
    method AllocUpTo(first: nat, newsz: nat, perm: bv10) returns (k: nat, ghost y: Stock, ghost z: Stock)
      requires Good() && first <= PagesFor(newsz) <= MAX_VPN
      requires forall w: nat {:trigger At(w)} :: first <= w < PagesFor(newsz) ==> !Valid(At(w))
      modifies this
      ensures Good() && first + k <= PagesFor(newsz)
      ensures forall w: nat {:trigger At(w)} :: !(first <= w < first + k) ==> At(w) == old(At(w))
      ensures Mapped(first, k, perm, old(free), old(given))
      ensures Spent(old(stock), first, k, y) && y.room >= 0
      ensures first + k < PagesFor(newsz) ==> Spent(old(stock), first, k + 1, z) && z.room < 0
    {
      k := 0;
      ghost var x, m, last := stock, Memo(pt, t, free, given), PagesFor(newsz);
      y, z := x, x;
      LeftNone(x, first);
      MappedNone(pt, t, given, first, perm, free);
      Leaves();
      PageBelow(first, newsz);
      while (first + k) * 4096 < newsz
        invariant Progress(first, k, last, perm, m, x) && ((first + k) * 4096 < newsz <==> first + k < last)
        decreases last - k
      {
        var ok;
        ok, y, z := AllocStep(first, k, last, perm, m, x);
        if !ok { return; }
        k := k + 1;
        PageBelow(first + k, newsz);
      }
      StockRoom();
      y := stock;
    }

    /** uvmalloc's loop, begun in state m with stock x, has mapped k pages. */
    ghost predicate Progress(first: nat, k: nat, last: nat, perm: bv10, m: Memo, x: Stock)
      reads this
    {
      Spent(x, first, k, stock) && Partial(first, k, last, perm, m)
    }

    ghost predicate Partial(first: nat, k: nat, last: nat, perm: bv10, m: Memo)
      reads this
    {
      && Good() && first + k <= last <= MAX_VPN && Mapped(first, k, perm, m.free, m.given)
      && (forall w: nat {:trigger At(w)} :: !(first <= w < first + k) ==> At(w) == Leaf(m.pt, m.t, w))
      && (forall w: nat {:trigger Leaf(m.pt, m.t, w)} :: first <= w < last ==> !Valid(Leaf(m.pt, m.t, w)))
    }

    method AllocStep(first: nat, k: nat, ghost last: nat, perm: bv10, ghost m: Memo, ghost x: Stock)
      returns (ok: bool, ghost y: Stock, ghost z: Stock)
      requires Progress(first, k, last, perm, m, x) && first + k < last
      modifies this
      ensures if ok then Progress(first, k + 1, last, perm, m, x) else Partial(first, k, last, perm, m)
      ensures Spent(x, first, k, y) && y.room >= 0 && Spent(x, first, k + 1, z) && (!ok ==> z.room < 0)
    {
      assert !Valid(At(first + k));
      StockRoom();
      y := stock;
      ok, z := AllocNext(first, k, perm, m.free, m.given, x);
    }

    /**
     uvmalloc: grow from oldsz to newsz bytes, 0 on failure. It succeeds exactly if
     the free pages cover the new pages and the tables they need, and then maps the
     new pages to distinct pages taken off the free list. Failure zeroes the entries
     of the pages that the free list did cover and gives every page back that is not
     a new table, so it restores the leaf map exactly if those entries were zero.
     */
    method Alloc(oldsz: nat, newsz: nat, perm: bv10) returns (sz: nat, ghost reached: nat)
      requires Good() && PagesFor(newsz) <= MAX_VPN
      requires forall w: nat {:trigger At(w)} :: PagesFor(oldsz) <= w < PagesFor(newsz) ==> !Valid(At(w))
      modifies this
      ensures Good()
      ensures newsz < oldsz ==> sz == oldsz && reached == 0 && unchanged(this)
      ensures newsz >= oldsz ==>
        var v, w := PagesFor(oldsz), PagesFor(newsz);
        && Covers(old(stock), v, w, reached) && sz == (if v + reached == w then newsz else 0)
        && (v + reached == w <==> Spend(old(stock), v, w - v).room >= 0)
        && (v + reached == w ==> Mapped(v, reached, perm, old(free), old(given)))
        && (v + reached < w ==>
              && given == old(given) && (forall x: nat {:trigger At(x)} :: v <= x < v + reached ==> At(x) == Zero))
      ensures forall w: nat {:trigger At(w)} ::
        !(PagesFor(oldsz) <= w < PagesFor(oldsz) + reached) ==> At(w) == old(At(w))
    {
      reached := 0;
      if newsz < oldsz { return oldsz, 0; }
      var first := PagesFor(oldsz);
      var k;
      ghost var y, z;
      k, y, z := AllocUpTo(first, newsz, perm);
      CoversWhen(old(stock), first, PagesFor(newsz), k, y, z);
      CoversIff(old(stock), first, PagesFor(newsz), k);
      if (first + k) * 4096 < newsz {
        Rollback(first, k, perm, old(free), old(given));
        return 0, k;
      }
      return newsz, k;
    }

    /** The failure exits of uvmalloc. */
    method Rollback(first: nat, k: nat, perm: bv10, ghost pool: set<nat>, ghost before: set<nat>)
      requires Good() && first + k <= MAX_VPN && Mapped(first, k, perm, pool, before)
      modifies this
      ensures Good() && given == before
      ensures forall w: nat {:trigger At(w)} :: At(w) == if first <= w < first + k then Zero else old(At(w))
    {
      assert PagesFor(first * 4096) == first && PagesFor((first + k) * 4096) == first + k;
      var _ := Dealloc((first + k) * 4096, first * 4096);
    }

    // ---------- A process and its size ----------

    /**
     The pages of a process of sz bytes are its own, whether they are all mapped or
     not, and no entry between them and its trapframe is set.
     */
    ghost predicate Process(sz: nat)
      reads this
    {
      && Good() && sz <= TRAPFRAME_VPN * 4096 && OwnedRange(0, PagesFor(sz))
      && forall w: nat {:trigger At(w)} :: PagesFor(sz) <= w < TRAPFRAME_VPN ==> At(w) == Zero
    }

    lemma Leaves()
      ensures forall w: nat {:trigger Leaf(pt, t, w)} :: At(w) == Leaf(pt, t, w)
    {
    }

    /** There is address space and there are free pages for n more bytes. */
    ghost predicate CanGrow(sz: nat, n: nat)
      reads this`stock
    {
      && sz + n <= TRAPFRAME_VPN * 4096 && PagesFor(sz) <= PagesFor(sz + n)
      && Spend(stock, PagesFor(sz), PagesFor(sz + n) - PagesFor(sz)).room >= 0
    }

    /** growproc, for an int n; the sum wraps below 0. A call that fails changes no entry. */
    method Grow(sz: nat, n: int) returns (sz': nat, ok: bool)
      requires Process(sz) && -0x8000_0000 <= n < 0x8000_0000
      modifies this
      ensures Process(sz')
      ensures ok <==> n <= 0 || old(CanGrow(sz, n))
      ensures !ok ==> sz' == sz && given == old(given) && forall w: nat {:trigger At(w)} :: At(w) == old(At(w))
      ensures ok && n > 0 ==>
        && sz' == sz + n && Mapped(PagesFor(sz), PagesFor(sz') - PagesFor(sz), GROW_PERM, old(free), old(given))
        && (forall w: nat {:trigger At(w)} :: !(PagesFor(sz) <= w < PagesFor(sz')) ==> At(w) == old(At(w)))
      ensures n <= 0 ==>
        && sz' == (if sz + n < 0 then sz else sz + n)
        && (forall w: nat {:trigger At(w)} :: At(w) == if PagesFor(sz') <= w < PagesFor(sz) then Zero else old(At(w)))
    {
      if n > 0 {
        sz', ok := Extend(sz, n);
      } else {
        sz' := Shrink(sz, n);
        ok := true;
      }
    }

    method Extend(sz: nat, n: nat) returns (sz': nat, ok: bool)
      requires Process(sz) && n > 0
      modifies this
      ensures Process(sz')
      ensures ok <==> old(CanGrow(sz, n))
      ensures !ok ==> sz' == sz && given == old(given) && forall w: nat {:trigger At(w)} :: At(w) == old(At(w))
      ensures ok ==>
        && sz' == sz + n && Mapped(PagesFor(sz), PagesFor(sz') - PagesFor(sz), GROW_PERM, old(free), old(given))
        && (forall w: nat {:trigger At(w)} :: !(PagesFor(sz) <= w < PagesFor(sz')) ==> At(w) == old(At(w)))
    {
      if sz + n > TRAPFRAME_VPN * 4096 { return sz, false; }
      ghost var m := Memo(pt, t, free, given);
      assert PagesFor(sz) <= PagesFor(sz + n) <= TRAPFRAME_VPN;
      ok := AllocOrNothing(sz, sz + n, GROW_PERM);
      Leaves();
      assert forall w: nat {:trigger Leaf(m.pt, m.t, w)} :: old(At(w)) == Leaf(m.pt, m.t, w);
      if !ok {
        OwnedFrame(m.pt, m.t, m.given, pt, t, given, 0, PagesFor(sz));
        return sz, false;
      }
      OwnedJoin(m.pt, m.t, m.given, pt, t, given, PagesFor(sz), PagesFor(sz + n) - PagesFor(sz));
      return sz + n, true;
    }

    /** uvmalloc on zero entries maps all new pages or changes no entry. */
    method AllocOrNothing(oldsz: nat, newsz: nat, perm: bv10) returns (ok: bool)
      requires Good() && 0 < newsz && oldsz <= newsz && PagesFor(newsz) <= MAX_VPN
      requires forall w: nat {:trigger At(w)} :: PagesFor(oldsz) <= w < PagesFor(newsz) ==> At(w) == Zero
      modifies this
      ensures Good() && PagesFor(oldsz) <= PagesFor(newsz)
      ensures ok <==> Spend(old(stock), PagesFor(oldsz), PagesFor(newsz) - PagesFor(oldsz)).room >= 0
      ensures !ok ==> given == old(given) && forall w: nat {:trigger At(w)} :: At(w) == old(At(w))
      ensures ok ==>
        && Mapped(PagesFor(oldsz), PagesFor(newsz) - PagesFor(oldsz), perm, old(free), old(given))
        && forall w: nat {:trigger At(w)} :: !(PagesFor(oldsz) <= w < PagesFor(newsz)) ==> At(w) == old(At(w))
    {
      assert !Valid(Zero);
      var r;
      ghost var reached;
      r, reached := Alloc(oldsz, newsz, perm);
      ok := r != 0;
    }

    method Shrink(sz: nat, n: int) returns (sz': nat)
      requires Process(sz) && -0x8000_0000 <= n <= 0
      modifies this
      ensures Process(sz') && sz' == if sz + n < 0 then sz else sz + n
      ensures forall w: nat {:trigger At(w)} :: At(w) == if PagesFor(sz') <= w < PagesFor(sz) then Zero else old(At(w))
    {
      if n == 0 { return sz; }
      var newsz := if sz + n >= 0 then sz + n else sz + n + 0x1_0000_0000_0000_0000;
      ghost var m := Memo(pt, t, free, given);
      if sz + n >= 0 {
        assert PagesFor(newsz) <= PagesFor(sz);
        OwnedPart(PagesFor(newsz), PagesFor(sz) - PagesFor(newsz));
      }
      sz' := Dealloc(sz, newsz);
      Leaves();
      assert forall w: nat {:trigger Leaf(m.pt, m.t, w)} :: old(At(w)) == Leaf(m.pt, m.t, w);
      if sz + n >= 0 {
        OwnedFirst(m.pt, m.t, m.given, pt, 0, PagesFor(newsz), PagesFor(sz) - PagesFor(newsz));
      }
    }

    lemma OwnedPart(a: nat, b: nat)
      requires OwnedRange(0, a + b)
      ensures OwnedRange(a, b)
    {
    }

    /** Lazy sbrk: a process may grow without any page being mapped. */
    lemma GrowLazily(sz: nat, n: nat)
      requires Process(sz) && sz + n <= TRAPFRAME_VPN * 4096
      ensures Process(sz + n)
    {
      assert !Valid(Zero);
      assert PagesFor(sz) <= PagesFor(sz + n) <= TRAPFRAME_VPN;
      Leaves();
      assert Owned(pt, t, given, 0, PagesFor(sz + n));
    }

    /** Eviction of page v to a swap slot. An entry for slot 0 reads as if the page had never been there. */
    method Evict(v: nat, slot: nat, ghost sz: nat)
      requires Process(sz) && v < PagesFor(sz) && Valid(At(v))
      modifies this
      ensures Process(sz) && At(v) == Pte(slot, 0) && (At(v) == Zero <==> slot == 0)
      ensures forall w: nat {:trigger At(w)} :: w != v ==> At(w) == old(At(w))
      ensures free == old(free) + {old(At(v)).ppn} && given == old(given) - {old(At(v)).ppn}
    {
      ghost var m := Memo(pt, t, free, given);
      assert !Valid(Zero) && !Valid(Pte(slot, 0));
      var p := Walk(v, false);
      var e := GetLeaf(p.value, v);
      SetLeaf(p.value, v, Pte(slot, 0));
      Kfree(e.ppn);
      Leaves();
      assert forall w: nat {:trigger Leaf(m.pt, m.t, w)} :: old(At(w)) == Leaf(m.pt, m.t, w);
      OwnedSet(m.pt, m.t, m.given, pt, t, given, 0, PagesFor(sz), v);
    }

    ghost predicate CanPageIn(v: nat)
      reads this`pt, this`t, this`stock
    {
      if At(v) != Zero then stock.room > 0 else Spend(stock, v, 1).room >= 0
    }

    /** vmfault once a frame is free for the page, which is fresh or comes back from its slot. */
    method PageIn(va: nat, sz: nat) returns (ok: bool)
      requires Process(sz)
      modifies this
      ensures Process(sz)
      ensures ok <==> va < sz && !Valid(old(At(va / 4096))) && old(CanPageIn(va / 4096))
      ensures !ok ==> given == old(given) && forall w: nat {:trigger At(w)} :: At(w) == old(At(w))
      ensures ok ==>
        && At(va / 4096).flags == GROW_PERM | PTE_V && At(va / 4096).ppn in old(free)
        && given == old(given) + {At(va / 4096).ppn}
        && forall w: nat {:trigger At(w)} :: w != va / 4096 ==> At(w) == old(At(w))
    {
      if va >= sz { return false; }
      ghost var m := Memo(pt, t, free, given);
      var v := va / 4096;
      assert v < PagesFor(sz) <= TRAPFRAME_VPN;
      var p := Walk(v, false);
      var e := Zero;
      if p.Some? { e := GetLeaf(p.value, v); }
      assert e == At(v);
      if Valid(e) { return false; }
      if e != Zero {
        var mem := Kalloc();
        if mem.None? { return false; }
        SetLeaf(p.value, v, Pte(mem.value, GROW_PERM | PTE_V));
        ok := true;
      } else {
        ok := AllocOne(v, GROW_PERM);
      }
      Leaves();
      assert forall w: nat {:trigger Leaf(m.pt, m.t, w)} :: old(At(w)) == Leaf(m.pt, m.t, w);
      if ok {
        OwnedSet(m.pt, m.t, m.given, pt, t, given, 0, PagesFor(sz), v);
      } else {
        OwnedFrame(m.pt, m.t, m.given, pt, t, given, 0, PagesFor(sz));
      }
    }

    /**
     freewalk of the table page p, which sits at node n of the tree: every table
     page under n goes back to the free list exactly once, no other page changes.
     */
    method FreeWalk(p: nat, ghost n: Node)
      requires n in t && t[n] == p && n.level <= 2 && SubOk(pt, t, n) && forall m :: m in t ==> t[m] !in free
      modifies this
      decreases n.level, 2
      ensures t == Without(old(t), n) && free == old(free) + Lost(old(t), t)
      ensures forall q :: q in old(pt) && q !in Lost(old(t), t) ==> q in pt && pt[q] == old(pt)[q]
    {
      TrimAll(t, n);
      ghost var m := Memo(pt, t, free, given);
      for i := 0 to 512
        invariant Walked(p, n, i, m)
      {
        FreeEntry(p, n, i, m);
      }
      Kfree(p);
      t := t - {n};
    }

    /** freewalk of page p, begun in state m, has dealt with the first i entries. */
    ghost predicate Walked(p: nat, n: Node, i: nat, m: Memo)
      reads this`pt, this`t, this`free
    {
      && t == Trimmed(m.t, n, i) && n in t && t[n] == p && n.level <= 2 && SubOk(pt, t, n)
      && free == m.free + Lost(m.t, t) && (forall k :: k in t ==> t[k] !in free)
      && (forall q :: q in m.pt && q !in Lost(m.t, t) && q != p ==> q in pt && pt[q] == m.pt[q])
    }

    /** The loop body of freewalk. */
    method FreeEntry(p: nat, ghost n: Node, i: nat, ghost m: Memo)
      requires i < 512 && Walked(p, n, i, m)
      modifies this
      decreases n.level, 1
      ensures Walked(p, n, i + 1, m)
    {
      assert TableOk(pt, t, n, n);
      assert n.level > 0 ==> EntryOk(pt[p], t, n, i);
      var e := pt[p][i];
      if Valid(e) && e.flags & PTE_RWX == 0 {
        FreeBranch(p, n, i);
        TrimStep(m.t, n, i);
      } else if Valid(e) {
        assert false;  // panic("freewalk: leaf")
      } else if n.level > 0 {
        NothingBelow(pt, t, n, i);
        TrimStep(m.t, n, i);
      }
    }

    /** The loop body of freewalk for an entry that points to a table. */
    method FreeBranch(p: nat, ghost n: Node, i: nat)
      requires n in t && t[n] == p && n.level <= 2 && SubOk(pt, t, n) && forall m :: m in t ==> t[m] !in free
      requires i < 512 && p in pt && i < |pt[p]| && Valid(pt[p][i])
      modifies this
      decreases n.level, 0
      ensures n.level > 0 && t == Without(old(t), Child(n, i)) && n in t && SubOk(pt, t, n)
      ensures free == old(free) + Lost(old(t), t) && forall m :: m in t ==> t[m] !in free
      ensures forall q :: q in old(pt) && q !in Lost(old(t), t) && q != p ==> q in pt && pt[q] == old(pt)[q]
    {
      assert TableOk(pt, t, n, n);
      assert EntryOk(pt[p], t, n, i);
      SubChild(pt, t, n, i);
      BranchChild(n, n, i);
      ghost var pt0, t0 := pt, t;
      FreeWalk(pt[p][i].ppn, Child(n, i));
      assert Unshared(t0, n);
      assert p !in Lost(t0, t);
      pt := pt[p := pt[p][i := Zero]];
      SubAfter(pt0, t0, n, i, pt);
      forall m | m in t
        ensures t[m] !in free
      {
        assert Unshared(t0, m);
      }
    }

    /** uvmfree's call of freewalk on a page table without leaf mappings. */
    method FreeAll()
      requires Good() && forall v: nat {:trigger At(v)} :: !Valid(At(v))
      modifies this
      ensures t == map[] && free == old(free) + old(t.Values) && old(free) !! old(t.Values)
      ensures forall p :: p in old(t.Values) ==> p in all
    {
      assert forall v: nat {:trigger Leaf(pt, t, v)} :: Valid(Leaf(pt, t, v)) == Valid(At(v));
      SubFromTree(pt, t);
      FreeWalk(root, Root);
      assert Lost(old(t), map[]) == old(t).Values;
    }
  }

  lemma ValidFlags(perm: bv10)
    ensures (perm | PTE_V) & PTE_V != 0
  {
  }
}
