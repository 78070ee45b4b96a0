/**
 Page eviction and swap-in of kernel/kalloc.c and the swapped-page branch of
 usertrap in kernel/trap.c, run sequentially: the Clock loop of evict_pages, the
 encoding of swap slots in page-table entries, and the way of a page to the swap
 area and back.
 */
module Paging {
  import opened DiskQueue
  import opened Swap
  import opened Clock

  // ---------- Page-table entries ----------

  // ppn: physical page number, or swap slot
  datatype Pte = Pte(ppn: nat, flags: bv10)

  const PTE_V: bv10 := 1
  const PTE_SWAPPED: bv10 := 256

  predicate Resident(e: Pte) { e.flags & PTE_V != 0 }
  predicate Swapped(e: Pte) { e.flags & PTE_V == 0 && e.flags & PTE_SWAPPED != 0 }

  /** The permission bits: all but V and SWAPPED. */
  function Perms(f: bv10): bv10 { f & 0x2FE }

  /** V off, SWAPPED on. */
  function Marked(e: Pte): Pte { e.(flags := (e.flags & 0x3FE) | PTE_SWAPPED) }

  /** Marked, then with the slot number in place of the page. */
  function SwapOutPte(e: Pte, slot: nat): Pte { Pte(slot, Marked(e).flags | PTE_SWAPPED) }

  /** The fault handler's entry: flags without SWAPPED, the new page, and V. */
  function SwapInPte(e: Pte, ppn: nat): Pte {
    var f := e.flags & 0x2FF;
    Pte(ppn, f | PTE_V)
  }

  lemma PteRoundTrip(e: Pte, slot: nat, ppn: nat)
    ensures Swapped(SwapOutPte(e, slot)) && SwapOutPte(e, slot).ppn == slot
    ensures Resident(SwapInPte(e, ppn)) && !Swapped(SwapInPte(e, ppn)) && SwapInPte(e, ppn).ppn == ppn
    ensures SwapInPte(e, ppn).flags & PTE_SWAPPED == 0 && !Resident(SwapOutPte(e, slot))
    ensures Perms(SwapOutPte(e, slot).flags) == Perms(e.flags) == Perms(SwapInPte(e, ppn).flags)
    ensures Resident(e) && e.flags & PTE_SWAPPED == 0 ==> SwapInPte(SwapOutPte(e, slot), e.ppn) == e
  {
  }

  // ---------- User pages, wherever they are ----------

  // A user page: process and virtual address
  datatype Key = Key(proc: nat, va: nat)

  // used and modes: the swap slots in use and the RAID mode recorded for each;
  // content and perms: what each user page holds and permits; flat: what it would
  // hold if nothing were ever swapped; lost: pages that since they appeared went to
  // the swap area in a mode that does not stripe
  datatype Memory = Memory(
    pte: map<Key, Pte>, store: Store, used: seq<bool>, modes: seq<int>, free: seq<nat>,
    content: map<Key, seq<Block>>, perms: map<Key, bv10>, flat: map<Key, seq<Block>>, lost: set<Key>)

  /** Page k has its permissions and, unless it is lost, its contents are those of flat memory. */
  ghost predicate PageOk(m: Memory, k: Key) {
    k in m.pte ==>
      && k in m.content && |m.content[k]| == PAGE_BLOCKS && k in m.flat && |m.flat[k]| == PAGE_BLOCKS
      && k in m.perms && Perms(m.pte[k].flags) == m.perms[k] && (k !in m.lost ==> m.flat[k] == m.content[k])
      && (Resident(m.pte[k]) || Swapped(m.pte[k])) && PlaceOk(m, k)
  }

  /** The contents are in the page's own memory, or on the stripes of its slot. */
  ghost predicate PlaceOk(m: Memory, k: Key)
    requires k in m.pte && k in m.content
  {
    var e := m.pte[k];
    && (Resident(e) ==>
          && e.flags & PTE_SWAPPED == 0 && HasPage(m.store, e.ppn) && e.ppn !in m.free
          && InMemory(m.store, e.ppn) == m.content[k])
    && (Swapped(e) ==>
          && HasBlocks(m.store) && e.ppn < NSWAP && e.ppn < |m.used| && m.used[e.ppn] && e.ppn < |m.modes|
          && (if Striped(m.modes[e.ppn]) then OnDisk(m.store, e.ppn) == m.content[k] else k in m.lost))
  }

  /** Two user pages never share a physical page or a swap slot. */
  ghost predicate Apart(m: Memory, k: Key, l: Key) {
    k in m.pte && l in m.pte && k != l ==>
      && (Resident(m.pte[k]) && Resident(m.pte[l]) ==> m.pte[k].ppn != m.pte[l].ppn)
      && (Swapped(m.pte[k]) && Swapped(m.pte[l]) ==> m.pte[k].ppn != m.pte[l].ppn)
  }

  /** Entry k names swap slot i. */
  predicate NamesSlot(m: Memory, k: Key, i: nat) { k in m.pte && Swapped(m.pte[k]) && m.pte[k].ppn == i }

  /** A slot in use is named by an entry: none leaks. */
  ghost predicate SlotOk(m: Memory, i: nat) {
    i < |m.used| && m.used[i] ==> exists k :: NamesSlot(m, k, i)
  }

  ghost predicate MemoryOk(m: Memory) {
    && |m.used| == NSWAP && |m.modes| == NSWAP && HasBlocks(m.store)
    && (forall k {:trigger PageOk(m, k)} :: PageOk(m, k))
    && (forall k, l {:trigger Apart(m, k, l)} :: Apart(m, k, l))
    && (forall i: nat {:trigger SlotOk(m, i)} :: SlotOk(m, i))
    && (forall i :: 0 <= i < |m.free| ==> HasPage(m.store, m.free[i]))
    && (forall i, j :: 0 <= i < j < |m.free| ==> m.free[i] != m.free[j])
  }

  /** A page none of whose buffers changed reads the same. */
  lemma PageFrame(s: Store, t: Store, changed: nat, page: nat)
    requires SameKeys(s, t) && HasPage(s, page) && page != changed
    requires forall a :: a in s.mem && !OfPage(changed, a) ==> t.mem[a] == s.mem[a]
    ensures HasPage(t, page) && InMemory(t, page) == InMemory(s, page)
  {
  }

  /** Swapping out to one slot does not disturb a page striped over another. */
  lemma SlotFrame(s: Store, t: Store, mode: int, slot: nat, other: nat)
    requires SameKeys(s, t) && HasBlocks(s) && HasBlocks(t) && slot < NSWAP && other < NSWAP && slot != other
    requires forall x :: x in s.disk && !MayWrite(mode, slot, x) ==> t.disk[x] == s.disk[x]
    ensures OnDisk(t, other) == OnDisk(s, other)
  {
  }

  /** The victim k goes to a free slot. */
  function SwappedOut(m: Memory, k: Key, slot: nat, mode: int, t: Store): Memory
    requires k in m.pte && slot < |m.used| && slot < |m.modes|
  {
    m.(pte := m.pte[k := SwapOutPte(m.pte[k], slot)], store := t,
       used := m.used[slot := true], modes := m.modes[slot := mode],
       lost := if Striped(mode) then m.lost else m.lost + {k})
  }

  /** Store t is s after a page was written to a slot in some RAID mode. */
  ghost predicate WroteSlot(s: Store, t: Store, mode: int, slot: nat, page: nat) {
    && SameKeys(s, t) && t.mem == s.mem && HasBlocks(t) && HasPage(s, page) && slot < NSWAP
    && (Striped(mode) ==> OnDisk(t, slot) == InMemory(s, page))
    && (forall x :: x in s.disk && !MayWrite(mode, slot, x) ==> t.disk[x] == s.disk[x])
  }

  lemma OutPage(m: Memory, k: Key, slot: nat, mode: int, t: Store, l: Key)
    requires MemoryOk(m) && k in m.pte && Resident(m.pte[k]) && slot < NSWAP && !m.used[slot]
    requires WroteSlot(m.store, t, mode, slot, m.pte[k].ppn)
    ensures PageOk(SwappedOut(m, k, slot, mode, t), l)
  {
    assert PageOk(m, l) && PageOk(m, k);
    PteRoundTrip(m.pte[k], slot, 0);
    if l in m.pte && l != k && Swapped(m.pte[l]) {
      SlotFrame(m.store, t, mode, slot, m.pte[l].ppn);
    }
  }

  /** Slots named before and after are fine; slot x is seen to separately. */
  lemma SlotsStay(m: Memory, n: Memory, x: nat)
    requires MemoryOk(m) && |n.used| == |m.used| && SlotOk(n, x)
    requires forall i: nat :: i < |m.used| && i != x ==> n.used[i] == m.used[i]
    requires forall l, i: nat {:trigger NamesSlot(m, l, i)} :: NamesSlot(m, l, i) && i != x ==> NamesSlot(n, l, i)
    ensures forall i: nat {:trigger SlotOk(n, i)} :: SlotOk(n, i)
  {
    forall i: nat
      ensures SlotOk(n, i)
    {
      assert SlotOk(m, i);
      if i != x && i < |m.used| && m.used[i] {
        var l :| NamesSlot(m, l, i);
        assert NamesSlot(n, l, i);
      }
    }
  }

  lemma OutKeeps(m: Memory, k: Key, slot: nat, mode: int, t: Store)
    requires MemoryOk(m) && k in m.pte && Resident(m.pte[k]) && slot < NSWAP && !m.used[slot]
    requires WroteSlot(m.store, t, mode, slot, m.pte[k].ppn)
    ensures MemoryOk(SwappedOut(m, k, slot, mode, t))
  {
    var n := SwappedOut(m, k, slot, mode, t);
    forall l
      ensures PageOk(n, l)
    {
      OutPage(m, k, slot, mode, t, l);
    }
    PteRoundTrip(m.pte[k], slot, 0);
    forall l, j
      ensures Apart(n, l, j)
    {
      assert Apart(m, l, j) && PageOk(m, l) && PageOk(m, j);
    }
    assert NamesSlot(n, k, slot);
    SlotsStay(m, n, slot);
  }

  lemma OutUnmaps(m: Memory, k: Key, slot: nat, mode: int, t: Store)
    requires MemoryOk(m) && k in m.pte && Resident(m.pte[k]) && slot < NSWAP
    ensures Unmapped(SwappedOut(m, k, slot, mode, t), m.pte[k].ppn)
  {
    var n := SwappedOut(m, k, slot, mode, t);
    forall l | l in n.pte && Resident(n.pte[l])
      ensures n.pte[l].ppn != m.pte[k].ppn
    {
      PteRoundTrip(m.pte[k], slot, 0);
      assert Apart(m, k, l);
    }
  }

  /** memset of a physical page. */
  function Filled(s: Store, page: nat, x: Block): Store {
    s.(mem := map a | a in s.mem :: if OfPage(page, a) then x else s.mem[a])
  }

  ghost predicate Unmapped(m: Memory, page: nat) {
    forall k :: k in m.pte && Resident(m.pte[k]) ==> m.pte[k].ppn != page
  }

  lemma FreeUnmapped(m: Memory, i: nat)
    requires MemoryOk(m) && i < |m.free|
    ensures Unmapped(m, m.free[i]) && HasPage(m.store, m.free[i])
  {
    forall k | k in m.pte && Resident(m.pte[k])
      ensures m.pte[k].ppn != m.free[i]
    {
      assert PageOk(m, k);
    }
  }

  /** The contents of a page that no entry maps do not matter. */
  lemma FillKeeps(m: Memory, page: nat, x: Block, free: seq<nat>)
    requires MemoryOk(m) && Unmapped(m, page)
    requires forall i :: 0 <= i < |free| ==> free[i] == page || free[i] in m.free
    requires forall i, j :: 0 <= i < j < |free| ==> free[i] != free[j]
    requires page in free ==> HasPage(m.store, page)
    ensures MemoryOk(m.(store := Filled(m.store, page, x), free := free))
  {
    var n := m.(store := Filled(m.store, page, x), free := free);
    assert SameKeys(m.store, n.store);
    forall l
      ensures PageOk(n, l)
    {
      assert PageOk(m, l);
      if l in m.pte && Resident(m.pte[l]) { PageFrame(m.store, n.store, page, m.pte[l].ppn); }
    }
    forall l, j
      ensures Apart(n, l, j)
    {
      assert Apart(m, l, j);
    }
    SlotsStay(m, n, |m.used|);
  }

  /** Page k comes back from its slot into a page that nothing else uses, whatever the slot held. */
  function SwappedIn(m: Memory, k: Key, page: nat, t: Store): Memory
    requires k in m.pte && m.pte[k].ppn < |m.used| && HasPage(t, page)
  {
    m.(pte := m.pte[k := SwapInPte(m.pte[k], page)], store := t, used := m.used[m.pte[k].ppn := false],
       content := m.content[k := InMemory(t, page)])
  }

  /** Store t is s after a slot of some mode was read into a page. */
  ghost predicate ReadSlot(s: Store, t: Store, mode: int, slot: nat, page: nat) {
    && SameKeys(s, t) && t.disk == s.disk && HasBlocks(s) && HasPage(s, page) && HasPage(t, page) && slot < NSWAP
    && (Striped(mode) ==> InMemory(t, page) == OnDisk(s, slot))
    && (forall a :: a in s.mem && !OfPage(page, a) ==> t.mem[a] == s.mem[a])
  }

  lemma InKeeps(m: Memory, k: Key, page: nat, t: Store)
    requires MemoryOk(m) && k in m.pte && Swapped(m.pte[k]) && Unmapped(m, page) && page !in m.free
    requires m.pte[k].ppn < NSWAP && ReadSlot(m.store, t, m.modes[m.pte[k].ppn], m.pte[k].ppn, page)
    ensures MemoryOk(SwappedIn(m, k, page, t))
  {
    assert PageOk(m, k);
    var n := SwappedIn(m, k, page, t);
    PteRoundTrip(m.pte[k], 0, page);
    forall l
      ensures PageOk(n, l)
    {
      assert PageOk(m, l) && Apart(m, k, l);
      if l in m.pte && l != k && Resident(m.pte[l]) { PageFrame(m.store, t, page, m.pte[l].ppn); }
    }
    forall l, j
      ensures Apart(n, l, j)
    {
      assert Apart(m, l, j);
    }
    SlotsStay(m, n, m.pte[k].ppn);
  }

  // R, W and U
  const LAZY_FLAGS: bv10 := 2 | 4 | 16

  lemma LazyFlags(page: nat)
    ensures Resident(Pte(page, LAZY_FLAGS | PTE_V)) && Perms(LAZY_FLAGS | PTE_V) == LAZY_FLAGS
    ensures (LAZY_FLAGS | PTE_V) & PTE_SWAPPED == 0
  {
  }

  function Blank(x: Block): (r: seq<Block>)
    ensures |r| == PAGE_BLOCKS && forall b :: 0 <= b < PAGE_BLOCKS ==> r[b] == x
  {
    [x, x, x, x]
  }

  /** A fresh page for k. */
  function Mapped(m: Memory, k: Key, page: nat, x: Block): Memory {
    m.(pte := m.pte[k := Pte(page, LAZY_FLAGS | PTE_V)], store := Filled(m.store, page, x),
       content := m.content[k := Blank(x)], perms := m.perms[k := LAZY_FLAGS], flat := m.flat[k := Blank(x)],
       lost := m.lost - {k})
  }

  lemma MapKeeps(m: Memory, k: Key, page: nat, x: Block)
    requires MemoryOk(m) && k !in m.pte && Unmapped(m, page) && page !in m.free && HasPage(m.store, page)
    ensures MemoryOk(Mapped(m, k, page, x))
  {
    var m1 := m.(store := Filled(m.store, page, x), free := m.free);
    FillKeeps(m, page, x, m.free);
    LazyFlags(page);
    var n := Mapped(m, k, page, x);
    forall l
      ensures PageOk(n, l)
    {
      assert PageOk(m1, l);
      if l == k {
        assert forall b: nat :: b < PAGE_BLOCKS ==> OfPage(page, Buf(page, b));
        assert InMemory(n.store, page) == Blank(x);
      }
    }
    forall l, j
      ensures Apart(n, l, j)
    {
      assert Apart(m, l, j);
    }
    SlotsStay(m, n, |m.used|);
  }

  lemma DropKeeps(m: Memory, k: Key, used: seq<bool>)
    requires MemoryOk(m) && k in m.pte && |used| == |m.used|
    requires forall i: nat :: i < |used| ==> used[i] == (m.used[i] && !(Swapped(m.pte[k]) && i == m.pte[k].ppn))
    ensures MemoryOk(m.(pte := m.pte - {k}, used := used))
    ensures Resident(m.pte[k]) ==> Unmapped(m.(pte := m.pte - {k}, used := used), m.pte[k].ppn)
  {
    var n := m.(pte := m.pte - {k}, used := used);
    forall l
      ensures PageOk(n, l)
    {
      assert PageOk(m, l) && Apart(m, k, l);
    }
    forall l, j
      ensures Apart(n, l, j)
    {
      assert Apart(m, l, j);
    }
    forall l | l in n.pte && Resident(n.pte[l]) && Resident(m.pte[k])
      ensures n.pte[l].ppn != m.pte[k].ppn
    {
      assert Apart(m, k, l);
    }
    SlotsStay(m, n, if Swapped(m.pte[k]) then m.pte[k].ppn else |m.used|);
  }

  /** The program of page k writes block b of it. */
  function Written(m: Memory, k: Key, b: nat, x: Block): Memory
    requires k in m.pte && k in m.content && b < |m.content[k]| && k in m.flat && b < |m.flat[k]|
  {
    m.(store := m.store.(mem := m.store.mem[Buf(m.pte[k].ppn, b) := x]),
       content := m.content[k := m.content[k][b := x]], flat := m.flat[k := m.flat[k][b := x]])
  }

  lemma WriteKeeps(m: Memory, k: Key, b: nat, x: Block)
    requires MemoryOk(m) && k in m.pte && Resident(m.pte[k]) && b < PAGE_BLOCKS
    requires k in m.content && |m.content[k]| == PAGE_BLOCKS && k in m.flat && |m.flat[k]| == PAGE_BLOCKS
    ensures MemoryOk(Written(m, k, b, x))
  {
    assert PageOk(m, k);
    var n := Written(m, k, b, x);
    var p := m.pte[k].ppn;
    assert Buf(p, b) in m.store.mem;
    assert n.store.mem.Keys == m.store.mem.Keys;
    assert OfPage(p, Buf(p, b));
    forall l
      ensures PageOk(n, l)
    {
      assert PageOk(m, l) && Apart(m, k, l);
      if l == k {
        assert InMemory(n.store, p) == InMemory(m.store, p)[b := x];
      } else if l in m.pte && Resident(m.pte[l]) {
        PageFrame(m.store, n.store, p, m.pte[l].ppn);
      }
    }
    forall l, j
      ensures Apart(n, l, j)
    {
      assert Apart(m, l, j);
    }
    SlotsStay(m, n, |m.used|);
  }

  /** Only what flat memory holds of mapped pages matters. */
  lemma MemoryFrame(m: Memory, n: Memory)
    requires MemoryOk(m) && n == m.(flat := n.flat)
    requires forall k :: k in m.pte ==> k in n.flat && k in m.flat && n.flat[k] == m.flat[k]
    ensures MemoryOk(n)
  {
    forall k
      ensures PageOk(n, k)
    {
      assert PageOk(m, k);
    }
    forall k, l
      ensures Apart(n, k, l)
    {
      assert Apart(m, k, l);
    }
    SlotsStay(m, n, |m.used|);
  }

  // ---------- The frame table and the Clock hand ----------

  // p and va of a frame
  datatype Owner = Nobody | Owner(key: Key)

  type Frame = Clock.Frame<Owner>

  // KERNBASE >> 12: the page of frame 0
  const FIRST_PAGE: nat := 0x80000

  /** The owner of an in-use frame maps its address to that frame. */
  ghost predicate FrameOk(f: Frame, i: nat, pte: map<Key, Pte>) {
    f.inUse ==>
      f.owner.Owner? && f.owner.key in pte && Resident(pte[f.owner.key]) && pte[f.owner.key].ppn == FIRST_PAGE + i
  }

  ghost predicate FramesOk(fs: seq<Frame>, pte: map<Key, Pte>) {
    forall i: nat {:trigger fs[i]} :: i < |fs| ==> FrameOk(fs[i], i, pte)
  }

  ghost predicate FramesOkBut(fs: seq<Frame>, pte: map<Key, Pte>, page: nat) {
    forall i: nat {:trigger fs[i]} :: i < |fs| && FIRST_PAGE + i != page ==> FrameOk(fs[i], i, pte)
  }

  ghost predicate AnySlot(used: seq<bool>) { exists i: nat :: i < |used| && !used[i] }

  const BSIZE: nat := 1024

  /** A block of memset. */
  function Memset(c: int): Block { seq(BSIZE, _ => c) }

  /** An entry that changes leaves the frame table in order if its frame, if any, is given up. */
  lemma FramesKeep(fs: seq<Frame>, gs: seq<Frame>, pte: map<Key, Pte>, k: Key, e: Pte)
    requires FramesOk(fs, pte) && |gs| == |fs| && k in pte
    requires forall i: nat {:trigger gs[i]} :: i < |gs| ==>
      gs[i] == fs[i] || !gs[i].inUse || FrameOk(gs[i], i, pte[k := e])
    requires Resident(pte[k]) ==>
      forall i: nat {:trigger gs[i]} :: i < |gs| && FIRST_PAGE + i == pte[k].ppn ==> !gs[i].inUse
    ensures FramesOk(gs, pte[k := e])
  {
  }

  lemma FramesAdd(fs: seq<Frame>, pte: map<Key, Pte>, k: Key, e: Pte)
    requires FramesOk(fs, pte) && k !in pte
    ensures FramesOk(fs, pte[k := e])
  {
    forall i: nat {:trigger fs[i]} | i < |fs|
      ensures FrameOk(fs[i], i, pte[k := e])
    {
      assert FrameOk(fs[i], i, pte);
    }
  }

  /** What evict_pages does to a frame table, from the hand's position, with victim v and slot. */
  ghost predicate Evicted(
    fs: seq<Frame>, hand: nat, pte: map<Key, Pte>, gs: seq<Frame>, hand': nat, pte': map<Key, Pte>, v: nat, slot: nat)
  {
    && SecondChance(InUse(fs), Refs(fs), hand, v) && FrameOk(fs[v], v, pte) && fs[v].inUse
    && gs == Passed(fs, hand, v)[v := Frame(false, Nobody, false)]
    && hand' == (v + 1) % |fs|
    && pte' == pte[fs[v].owner.key := SwapOutPte(pte[fs[v].owner.key], slot)]
  }

  function Untracked(fs: seq<Frame>, page: nat): (r: seq<Frame>)
    ensures |r| == |fs|
  {
    var i := page - FIRST_PAGE;
    if 0 <= i < |fs| then fs[i := Frame(false, Nobody, fs[i].ref)] else fs
  }

  lemma PassedOwner(fs: seq<Frame>, hand: nat, pte: map<Key, Pte>, v: nat)
    requires FramesOk(fs, pte) && SecondChance(InUse(fs), Refs(fs), hand, v)
    ensures fs[v].owner.Owner? && fs[v].owner == Passed(fs, hand, v)[v].owner && fs[v].owner.key in pte
  {
  }

  lemma IsEvicted(fs: seq<Frame>, hand: nat, pte: map<Key, Pte>, gs: seq<Frame>, v: nat, slot: nat)
    requires FramesOk(fs, pte) && SecondChance(InUse(fs), Refs(fs), hand, v) && gs == Passed(fs, hand, v) && !gs[v].ref
    ensures fs[v].owner.Owner? && fs[v].owner == gs[v].owner && fs[v].owner.key in pte
    ensures
      var p, k := FIRST_PAGE + v, fs[v].owner.key;
      var pte' := pte[k := SwapOutPte(pte[k], slot)];
      Evicted(fs, hand, pte, Untracked(Untracked(gs, p), p), (v + 1) % |fs|, pte', v, slot)
  {
  }

  // ---------- What happens to the pages that are not touched ----------

  // Page k went to the swap area in RAID mode `mode`, or appeared
  datatype Event = Out(k: Key, mode: int) | New(k: Key)

  /** The lost pages, from those lost before and the events since. */
  function LostAfter(lost: set<Key>, evs: seq<Event>): set<Key> {
    if evs == [] then lost
    else
      var before := LostAfter(lost, evs[..|evs| - 1]);
      match evs[|evs| - 1]
      case Out(k, mode) => if Striped(mode) then before else before + {k}
      case New(k) => before - {k}
  }

  lemma {:induction false} LostAfterMore(lost: set<Key>, evs: seq<Event>, more: seq<Event>)
    ensures LostAfter(lost, evs + more) == LostAfter(LostAfter(lost, evs), more)
  {
    if more == [] {
      assert evs + more == evs;
    } else {
      assert (evs + more)[..|evs + more| - 1] == evs + more[..|more| - 1];
      LostAfterMore(lost, evs, more[..|more| - 1]);
    }
  }

  /**
   Page l kept its contents and permissions, and it is where it was or it has gone
   to a slot, in the mode that evs says.
   */
  ghost predicate Kept(m: Memory, n: Memory, evs: seq<Event>, l: Key) {
    l in m.pte ==>
      && l in n.pte && l in m.content && l in n.content && n.content[l] == m.content[l]
      && l in m.perms && l in n.perms && n.perms[l] == m.perms[l]
      && var e, f := m.pte[l], n.pte[l];
         || (f == e && (Swapped(e) ==> e.ppn < |m.modes| && e.ppn < |n.modes| && n.modes[e.ppn] == m.modes[e.ppn]))
         || (Resident(e) && Swapped(f) && f.ppn < |n.modes| && Out(l, n.modes[f.ppn]) in evs)
  }

  /** A page that goes out was in memory and does so in this mode; a page that appears was not mapped. */
  predicate EventOk(m: Memory, n: Memory, e: Event, mode: int) {
    match e
    case Out(k, md) => md == mode && k in m.pte && Resident(m.pte[k]) && k in n.pte && Swapped(n.pte[k])
    case New(k) => k !in m.pte && k in n.pte && Resident(n.pte[k])
  }

  ghost predicate Happened(m: Memory, n: Memory, evs: seq<Event>, mode: int) {
    forall e :: e in evs ==> EventOk(m, n, e, mode)
  }

  /** Then page k, which was not in memory, is brought in. */
  lemma HappenedOn(m: Memory, n: Memory, o: Memory, evs: seq<Event>, mode: int, k: Key)
    requires Happened(m, n, evs, mode) && (k in m.pte ==> !Resident(m.pte[k])) && k in o.pte && Resident(o.pte[k])
    requires forall l :: l in n.pte && l != k ==> l in o.pte && o.pte[l] == n.pte[l]
    ensures Happened(m, o, evs, mode)
  {
    forall e | e in evs
      ensures EventOk(m, o, e, mode)
    {
      assert EventOk(m, n, e, mode);
    }
  }

  /** Page l went out in a mode that does not stripe. */
  ghost predicate NewlyLost(m: Memory, n: Memory, mode: int, l: Key) {
    !Striped(mode) && l in m.pte && Resident(m.pte[l]) && l in n.pte && Swapped(n.pte[l])
  }

  ghost predicate Anew(m: Memory, n: Memory, mode: int) {
    forall l :: l in n.lost && l !in m.lost ==> NewlyLost(m, n, mode, l)
  }

  /** So the pages lost anew are pages that went out in a mode that does not stripe. */
  lemma {:induction false} LostHow(m: Memory, n: Memory, evs: seq<Event>, mode: int)
    requires Happened(m, n, evs, mode)
    ensures Anew(m, n.(lost := LostAfter(m.lost, evs)), mode)
  {
    if evs != [] {
      assert forall e :: e in evs[..|evs| - 1] ==> EventOk(m, n, e, mode);
      LostHow(m, n, evs[..|evs| - 1], mode);
      assert evs[|evs| - 1] in evs;
    }
  }

  /** The pages other than k did not move. */
  lemma KeptBut(m: Memory, n: Memory, k: Key, evs: seq<Event>)
    requires MemoryOk(m) && n.modes == m.modes
    requires forall l :: l in m.pte && l != k ==> l in n.pte && n.pte[l] == m.pte[l]
    requires forall l :: l in m.content && l != k ==> l in n.content && n.content[l] == m.content[l]
    requires forall l :: l in m.perms && l != k ==> l in n.perms && n.perms[l] == m.perms[l]
    ensures forall l :: l != k ==> Kept(m, n, evs, l)
  {
    forall l | l != k
      ensures Kept(m, n, evs, l)
    {
      assert PageOk(m, l);
    }
  }

  lemma KeptSame(m: Memory, n: Memory)
    requires MemoryOk(m) && n.modes == m.modes && n.pte == m.pte && n.content == m.content && n.perms == m.perms
    ensures forall l :: Kept(m, n, [], l)
  {
    forall l
      ensures Kept(m, n, [], l)
    {
      assert PageOk(m, l);
    }
  }

  lemma KeptOn(m: Memory, n: Memory, o: Memory, evs: seq<Event>, more: seq<Event>, l: Key)
    requires Kept(m, n, evs, l) && Kept(n, o, more, l)
    ensures Kept(m, o, evs + more, l)
  {
  }

  lemma KeptOnAll(m: Memory, n: Memory, o: Memory, evs: seq<Event>, more: seq<Event>, k: Key)
    requires (forall l :: l != k ==> Kept(m, n, evs, l)) && (forall l :: l != k ==> Kept(n, o, more, l))
    ensures forall l :: l != k ==> Kept(m, o, evs + more, l)
  {
    forall l | l != k
      ensures Kept(m, o, evs + more, l)
    {
      KeptOn(m, n, o, evs, more, l);
    }
  }

  lemma EvictedKept(
      m: Memory, n: Memory, fs: seq<Frame>, hand: nat, gs: seq<Frame>, hand': nat, v: nat, slot: nat, mode: int, l: Key)
    requires MemoryOk(m) && Evicted(fs, hand, m.pte, gs, hand', n.pte, v, slot) && slot < NSWAP && !m.used[slot]
    requires n.content == m.content && n.perms == m.perms && n.modes == m.modes[slot := mode]
    ensures Kept(m, n, [Out(fs[v].owner.key, mode)], l) && Happened(m, n, [Out(fs[v].owner.key, mode)], mode)
  {
    assert PageOk(m, l) && PageOk(m, fs[v].owner.key);
    PteRoundTrip(m.pte[fs[v].owner.key], slot, 0);
  }

  // ---------- Flat memory ----------

  // va: the address used, in page k; size: the size of the process
  datatype Op =
    | Access(k: Key, va: nat, size: nat, priority: int)
    | Write(k: Key, va: nat, size: nat, priority: int, b: nat, x: Block)
    | Remove(k: Key)
    | SetMode(mode: int)
    | SetPolicy(policy: Policy)

  predicate WellFormed(op: Op) {
    match op
    case Access(k, va, _, priority) => 0 <= priority <= 3
    case Write(k, va, _, priority, b, _) => 0 <= priority <= 3 && b < PAGE_BLOCKS
    case _ => true
  }

  predicate Touches(op: Op) { op.Access? || op.Write? }

  predicate Names(op: Op, k: Key) { (Touches(op) || op.Remove?) && op.k == k }

  /** The RAID mode after an operation. */
  function ModeAfter(mode: int, op: Op): int { if op.SetMode? then op.mode else mode }

  /** The mode after the first n operations. */
  function Mode(mode: int, ops: seq<Op>, n: nat): int
    requires n <= |ops|
  {
    if n == 0 then mode else ModeAfter(Mode(mode, ops, n - 1), ops[n - 1])
  }

  /** A memory that never swaps: pages of the process appear zeroed at the first access. */
  function FlatTouch(c: map<Key, seq<Block>>, k: Key, inside: bool): map<Key, seq<Block>> {
    if k in c || !inside then c else c[k := Blank(Memset(0))]
  }

  function FlatStep(c: map<Key, seq<Block>>, op: Op): map<Key, seq<Block>> {
    match op
    case Access(k, va, size, _) => FlatTouch(c, k, va < size)
    case Write(k, va, size, _, b, x) =>
      var d := FlatTouch(c, k, va < size);
      if k in d && b < |d[k]| then d[k := d[k][b := x]] else d
    case Remove(k) => c - {k}
    case _ => c
  }

  function Flat(c: map<Key, seq<Block>>, ops: seq<Op>, n: nat): map<Key, seq<Block>>
    requires n <= |ops|
  {
    if n == 0 then c else FlatStep(Flat(c, ops, n - 1), ops[n - 1])
  }

  /** The permissions of the same memory: set when a page appears, then kept. */
  function PermsTouch(c: map<Key, seq<Block>>, p: map<Key, bv10>, k: Key, inside: bool): map<Key, bv10> {
    if k in c || !inside then p else p[k := LAZY_FLAGS]
  }

  function PermsStep(c: map<Key, seq<Block>>, p: map<Key, bv10>, op: Op): map<Key, bv10> {
    if Touches(op) then PermsTouch(c, p, op.k, op.va < op.size) else p
  }

  function FlatPerms(c: map<Key, seq<Block>>, p: map<Key, bv10>, ops: seq<Op>, n: nat): map<Key, bv10>
    requires n <= |ops|
  {
    if n == 0 then p else PermsStep(Flat(c, ops, n - 1), FlatPerms(c, p, ops, n - 1), ops[n - 1])
  }

  // ---------- Runs ----------

  /** One operation, seen from outside: what it does to flat memory, what goes out, and what stays. */
  ghost predicate Step(m: Memory, n: Memory, evs: seq<Event>, op: Op, mode: int) {
    && n.flat == FlatStep(m.flat, op) && n.perms == PermsStep(m.flat, m.perms, op)
    && n.lost == LostAfter(m.lost, evs) && Happened(m, n, evs, mode)
    && (Touches(op) && op.k in n.pte ==> Resident(n.pte[op.k]))
    && forall l :: !Names(op, l) ==> Kept(m, n, evs, l)
  }

  function All(es: seq<seq<Event>>): seq<Event> {
    if es == [] then [] else All(es[..|es| - 1]) + es[|es| - 1]
  }

  /** The states and the events of the first n operations of a run. */
  ghost predicate Ran(mode: int, ops: seq<Op>, n: nat, trail: seq<Memory>, es: seq<seq<Event>>) {
    && n <= |ops| && |trail| == n + 1 && |es| == n
    && forall i: nat {:trigger es[i]} :: i < n ==> Step(trail[i], trail[i + 1], es[i], ops[i], Mode(mode, ops, i))
  }

  predicate Untouched(ops: seq<Op>, n: nat, l: Key)
    requires n <= |ops|
  {
    forall i :: 0 <= i < n ==> !Names(ops[i], l)
  }

  lemma RanMore(mode: int, ops: seq<Op>, n: nat, trail: seq<Memory>, es: seq<seq<Event>>, next: Memory, evs: seq<Event>)
    requires Ran(mode, ops, n, trail, es) && n < |ops| && Step(trail[n], next, evs, ops[n], Mode(mode, ops, n))
    ensures Ran(mode, ops, n + 1, trail + [next], es + [evs])
  {
    forall i: nat {:trigger (es + [evs])[i]} | i < n + 1
      ensures Step((trail + [next])[i], (trail + [next])[i + 1], (es + [evs])[i], ops[i], Mode(mode, ops, i))
    {
      assert i < n ==> (es + [evs])[i] == es[i];
    }
  }

  /** A run computes flat memory, and the pages it does not name are kept. */
  lemma {:induction false} RanFlat(mode: int, ops: seq<Op>, n: nat, trail: seq<Memory>, es: seq<seq<Event>>)
    requires Ran(mode, ops, n, trail, es) && MemoryOk(trail[0])
    ensures trail[n].flat == Flat(trail[0].flat, ops, n)
    ensures trail[n].perms == FlatPerms(trail[0].flat, trail[0].perms, ops, n)
    ensures trail[n].lost == LostAfter(trail[0].lost, All(es))
    ensures forall l :: Untouched(ops, n, l) ==> Kept(trail[0], trail[n], All(es), l)
  {
    if n == 0 {
      KeptSame(trail[0], trail[0]);
    } else {
      var es' := es[..n - 1];
      assert forall i: nat :: i < n - 1 ==> es'[i] == es[i];
      RanFlat(mode, ops, n - 1, trail[..n], es');
      assert Step(trail[n - 1], trail[n], es[n - 1], ops[n - 1], Mode(mode, ops, n - 1));
      LostAfterMore(trail[0].lost, All(es'), es[n - 1]);
      forall l | Untouched(ops, n, l)
        ensures Kept(trail[0], trail[n], All(es), l)
      {
        assert Untouched(ops, n - 1, l) && !Names(ops[n - 1], l);
        KeptOn(trail[0], trail[n - 1], trail[n], All(es'), es[n - 1], l);
      }
    }
  }

  class Pager {
    const sw: SwapArea
    const frames: array<Frame>
    var hand: nat                // clock_hand
    const slotUsed: array<bool>  // swap_space
    var pte: map<Key, Pte>
    var freeList: seq<nat>       // kmem.freelist, as page numbers
    ghost var content: map<Key, seq<Block>>
    ghost var perms: map<Key, bv10>
    ghost var flat: map<Key, seq<Block>>
    ghost var lost: set<Key>

    ghost function Now(): Memory
      reads this`pte, this`freeList, this`content, this`perms, this`flat, this`lost, sw.d, slotUsed, sw.slotMode
    {
      Memory(pte, sw.d.store, slotUsed[..], sw.slotMode[..], freeList, content, perms, flat, lost)
    }

    ghost predicate Good()
      reads this, sw, sw.d, sw.d.queue, slotUsed, sw.slotMode, frames
    {
      Tidy() && FramesOk(frames[..], pte)
    }

    /** Good but for the frame table. */
    ghost predicate Tidy()
      reads this, sw, sw.d, sw.d.queue, slotUsed, sw.slotMode, frames
    {
      sw.Ready() && hand < frames.Length && flat.Keys == pte.Keys && MemoryOk(Now())
    }

    /** kinit, given the free pages in list order. */
    constructor (sw: SwapArea, nframe: nat, free: seq<nat>)
      requires sw.Ready() && nframe > 0
      requires forall i :: 0 <= i < |free| ==> HasPage(sw.d.store, free[i])
      requires forall i, j :: 0 <= i < j < |free| ==> free[i] != free[j]
      ensures Good() && this.sw == sw && fresh(frames) && frames.Length == nframe && fresh(slotUsed)
      ensures freeList == free && pte == map[] && lost == {} && forall i :: 0 <= i < NSWAP ==> !slotUsed[i]
    {
      this.sw, hand, pte, freeList := sw, 0, map[], free;
      frames := new Frame[nframe](_ => Frame(false, Nobody, false));
      slotUsed := new bool[NSWAP](_ => false);
      content, perms, flat, lost := map[], map[], map[], {};
      new;
      assert forall k :: PageOk(Now(), k);
      assert forall k, l :: Apart(Now(), k, l);
      assert forall i: nat :: SlotOk(Now(), i);
    }

    /** The loop of evict_pages up to the victim. */
    method Select() returns (v: nat, ghost steps: nat)
      requires Good() && AnyInUse(frames[..])
      modifies this`hand, frames
      ensures Good()
      ensures SecondChance(old(InUse(frames[..])), old(Refs(frames[..])), old(hand), v)
      ensures frames[..] == Passed(old(frames[..]), old(hand), v)
      ensures frames[v].inUse && !frames[v].ref && hand == (v + 1) % frames.Length && 0 < steps <= 2 * frames.Length
    {
      ghost var fs, h0 := frames[..], hand;
      steps := 0;
      while true
        invariant FramesOk(frames[..], pte) && Sweeping(fs, frames[..], h0, hand, steps)
        decreases 2 * |fs| - steps
      {
        HandStep(fs, frames[..], h0, hand, steps);
        v := hand;
        hand := (hand + 1) % frames.Length;
        steps := steps + 1;
        var f := frames[v];
        assert FrameOk(frames[..][v], v, pte);
        if f.inUse && f.owner.Owner? && f.owner.key in pte && Resident(pte[f.owner.key]) {
          var j := pte[f.owner.key].ppn - FIRST_PAGE;
          if frames[j].ref {
            frames[j] := frames[j].(ref := false);
          } else {
            break;
          }
        }
      }
    }

    /** swap_out: the first free slot, or -1. */
    method SwapOut(page: nat, priority: int) returns (slot: int)
      requires sw.Ready() && slotUsed.Length == NSWAP && HasPage(sw.d.store, page) && 0 <= priority <= 3
      modifies slotUsed, sw.d, sw.d.queue, sw.slotMode
      ensures sw.Ready() && -1 <= slot < NSWAP && (slot == -1 <==> !old(AnySlot(slotUsed[..])))
      ensures slot == -1 ==> Now() == old(Now())
      ensures slot >= 0 ==>
        && !old(slotUsed[slot]) && (forall i :: 0 <= i < slot ==> old(slotUsed[i]))
        && slotUsed[..] == old(slotUsed[..])[slot := true]
        && sw.slotMode[..] == old(sw.slotMode[..])[slot := sw.raidMode]
        && WroteSlot(old(sw.d.store), sw.d.store, sw.raidMode, slot, page)
    {
      slot := -1;
      var i := 0;
      while i < NSWAP
        invariant 0 <= i <= NSWAP && forall j :: 0 <= j < i ==> slotUsed[j]
        modifies {}
      {
        if !slotUsed[i] {
          slot := i;
          break;
        }
        i := i + 1;
      }
      if slot != -1 {
        assert !slotUsed[..][slot];
        slotUsed[slot] := true;
        sw.SwapWrite(slot, page, priority);
      }
    }

    ghost predicate CanAlloc()
      reads this`freeList, frames, slotUsed
    {
      freeList == [] ==> AnyInUse(frames[..]) && AnySlot(slotUsed[..])
    }

    /** kfree of a page that nothing maps: off the frame table, filled with 1s, onto the free list. */
    method Kfree(page: nat)
      requires Tidy() && HasPage(sw.d.store, page) && page !in freeList && Unmapped(Now(), page)
      requires FramesOkBut(frames[..], pte, page)
      modifies this`freeList, frames, sw.d`store
      ensures Good() && freeList == [page] + old(freeList) && sw.d.store == Filled(old(sw.d.store), page, Memset(1))
      ensures frames[..] == Untracked(old(frames[..]), page)
    {
      var index := page - FIRST_PAGE;
      if 0 <= index < frames.Length {
        frames[index] := Frame(false, Nobody, frames[index].ref);
      }
      FillKeeps(Now(), page, Memset(1), [page] + freeList);
      sw.d.store := Filled(sw.d.store, page, Memset(1));
      freeList := [page] + freeList;
    }

    /** The victim's page goes to a slot, and its entry names the slot. */
    method PushOut(v: nat, priority: int) returns (page: nat, slot: nat)
      requires Good() && v < frames.Length && frames[v].inUse && AnySlot(slotUsed[..]) && 0 <= priority <= 3
      modifies this`pte, this`lost, frames, slotUsed, sw.d, sw.d.queue, sw.slotMode
      ensures Good() && page == FIRST_PAGE + v && slot < NSWAP && !old(slotUsed[slot])
      ensures sw.slotMode[..] == old(sw.slotMode[..])[slot := sw.raidMode]
      ensures HasPage(sw.d.store, page) && page !in freeList && Unmapped(Now(), page)
      ensures frames[..] == Untracked(old(frames[..]), page)
      ensures old(frames[v].owner).Owner? && var k := old(frames[v].owner).key;
        && k in old(pte) && pte == old(pte)[k := SwapOutPte(old(pte)[k], slot)]
        && lost == if Striped(sw.raidMode) then old(lost) else old(lost) + {k}
    {
      ghost var m, fs := Now(), frames[..];
      assert FrameOk(fs[v], v, pte);
      var k := frames[v].owner.key;
      page := pte[k].ppn;
      assert PageOk(m, k);
      slot := MoveOut(k, priority);
      OutKeeps(m, k, slot, sw.raidMode, sw.d.store);
      OutUnmaps(m, k, slot, sw.raidMode, sw.d.store);
      frames[v] := Frame(false, Nobody, frames[v].ref);
      FramesKeep(fs, frames[..], m.pte, k, SwapOutPte(m.pte[k], slot));
    }

    method MoveOut(k: Key, priority: int) returns (slot: nat)
      requires sw.Ready() && slotUsed.Length == NSWAP && AnySlot(slotUsed[..]) && 0 <= priority <= 3
      requires k in pte && HasPage(sw.d.store, pte[k].ppn)
      modifies this`pte, this`lost, slotUsed, sw.d, sw.d.queue, sw.slotMode
      ensures sw.Ready() && slot < NSWAP && !old(slotUsed[slot])
      ensures WroteSlot(old(sw.d.store), sw.d.store, sw.raidMode, slot, old(pte[k].ppn))
      ensures Now() == SwappedOut(old(Now()), k, slot, sw.raidMode, sw.d.store)
    {
      var e := pte[k];
      pte := pte[k := Marked(e)];
      var s := SwapOut(e.ppn, priority);
      slot := s;
      pte := pte[k := Pte(slot, pte[k].flags | PTE_SWAPPED)];
      assert pte == old(pte)[k := SwapOutPte(e, slot)];
      lost := if Striped(sw.raidMode) then lost else lost + {k};
    }

    method Discard(v: nat, priority: int) returns (p: nat, slot: nat)
      requires Good() && v < frames.Length && frames[v].inUse && AnySlot(slotUsed[..]) && 0 <= priority <= 3
      modifies this`pte, this`freeList, this`lost, frames, slotUsed, sw.d, sw.d.queue, sw.slotMode
      ensures Good() && p == FIRST_PAGE + v && freeList == [p] + old(freeList) && slot < NSWAP && !old(slotUsed[slot])
      ensures sw.slotMode[..] == old(sw.slotMode[..])[slot := sw.raidMode]
      ensures frames[..] == Untracked(Untracked(old(frames[..]), p), p)
      ensures old(frames[v].owner).Owner? && var k := old(frames[v].owner).key;
        && k in old(pte) && pte == old(pte)[k := SwapOutPte(old(pte)[k], slot)]
        && lost == if Striped(sw.raidMode) then old(lost) else old(lost) + {k}
    {
      p, slot := PushOut(v, priority);
      Kfree(p);
    }

    /** evict_pages up to its last line. */
    method Reclaim(priority: int) returns (p: nat, ghost v: nat, ghost slot: nat)
      requires Good() && AnyInUse(frames[..]) && AnySlot(slotUsed[..]) && 0 <= priority <= 3
      modifies this`hand, this`pte, this`freeList, this`lost, frames, slotUsed, sw.d, sw.d.queue, sw.slotMode
      ensures Good() && Evicted(old(frames[..]), old(hand), old(pte), frames[..], hand, pte, v, slot)
      ensures p == FIRST_PAGE + v && freeList == [p] + old(freeList) && slot < NSWAP && !old(slotUsed[slot])
      ensures sw.slotMode[..] == old(sw.slotMode[..])[slot := sw.raidMode]
      ensures lost == if Striped(sw.raidMode) then old(lost) else old(lost) + {old(frames[..])[v].owner.key}
    {
      ghost var fs, h, e, steps := frames[..], hand, pte, 0;
      var victim;
      victim, steps := Select();
      v := victim;
      ghost var gs := frames[..];
      PassedOwner(fs, h, e, v);
      assert fs[v].owner == frames[victim].owner;
      p, slot := Discard(victim, priority);
      IsEvicted(fs, h, e, gs, v, slot);
      assert frames[..] == Untracked(Untracked(gs, p), p) && hand == (v + 1) % |fs|;
      assert pte == e[fs[v].owner.key := SwapOutPte(e[fs[v].owner.key], slot)];
    }

    /** evict_pages: its last act is a kalloc, which finds the page just freed. */
    method EvictPages(priority: int) returns (page: nat, ghost v: nat, ghost slot: nat)
      requires Good() && AnyInUse(frames[..]) && AnySlot(slotUsed[..]) && 0 <= priority <= 3
      modifies this`hand, this`pte, this`freeList, this`lost, frames, slotUsed, sw.d, sw.d.queue, sw.slotMode
      ensures Good() && Available(page)
      ensures Evicted(old(frames[..]), old(hand), old(pte), frames[..], hand, pte, v, slot)
      ensures page == FIRST_PAGE + v && freeList == old(freeList) && slot < NSWAP && !old(slotUsed[slot])
      ensures sw.slotMode[..] == old(sw.slotMode[..])[slot := sw.raidMode]
      ensures lost == if Striped(sw.raidMode) then old(lost) else old(lost) + {old(frames[..])[v].owner.key}
      decreases 1
    {
      var p;
      p, v, slot := Reclaim(priority);
      ghost var evs;
      page, evs := Kalloc(priority);
      assert ([page] + freeList)[0] == p && ([page] + freeList)[1..] == freeList;
    }

    /** Off the free list, unmapped and filled with 5s. */
    ghost predicate Available(page: nat)
      reads this, sw, sw.d, sw.slotMode, slotUsed
    {
      && page !in freeList && Unmapped(Now(), page) && HasPage(sw.d.store, page)
      && InMemory(sw.d.store, page) == Blank(Memset(5))
    }

    method TakeFree() returns (page: nat)
      requires Good() && freeList != []
      modifies this`freeList, sw.d`store
      ensures Good() && Available(page) && [page] + freeList == old(freeList)
      ensures forall l :: Kept(old(Now()), Now(), [], l)
    {
      page := freeList[0];
      ghost var m := Now();
      FreeUnmapped(m, 0);
      freeList := freeList[1..];
      FillKeeps(m, page, Memset(5), freeList);
      sw.d.store := Filled(sw.d.store, page, Memset(5));
      assert forall b: nat :: b < PAGE_BLOCKS ==> OfPage(page, Buf(page, b));
      KeptSame(m, Now());
    }

    /** kalloc, when it can succeed: swap is not full, and some frame can be evicted if no page is free. */
    method Kalloc(priority: int) returns (page: nat, ghost evs: seq<Event>)
      requires Good() && 0 <= priority <= 3 && CanAlloc()
      modifies this`hand, this`pte, this`freeList, this`lost, frames, slotUsed, sw.d, sw.d.queue, sw.slotMode
      ensures Good() && Available(page)
      ensures lost == LostAfter(old(lost), evs) && Happened(old(Now()), Now(), evs, sw.raidMode)
      ensures forall l :: Kept(old(Now()), Now(), evs, l)
      ensures old(freeList) != [] ==>
        && [page] + freeList == old(freeList) && frames[..] == old(frames[..]) && slotUsed[..] == old(slotUsed[..])
        && hand == old(hand) && pte == old(pte) && evs == [] && sw.slotMode[..] == old(sw.slotMode[..])
      ensures old(freeList) == [] ==> freeList == [] && exists v: nat, slot: nat ::
        && Evicted(old(frames[..]), old(hand), old(pte), frames[..], hand, pte, v, slot) && page == FIRST_PAGE + v
        && evs == [Out(old(frames[..])[v].owner.key, sw.raidMode)]
      decreases if freeList == [] then 2 else 0
    {
      if freeList != [] {
        page := TakeFree();
        evs := [];
      } else {
        ghost var m, fs, h, v, slot := Now(), frames[..], hand, 0, 0;
        page, v, slot := EvictPages(priority);
        evs := [Out(fs[v].owner.key, sw.raidMode)];
        forall l
          ensures Kept(m, Now(), evs, l) && Happened(m, Now(), evs, sw.raidMode)
        {
          EvictedKept(m, Now(), fs, h, frames[..], hand, v, slot, sw.raidMode, l);
        }
      }
    }

    /** kalloc for a page fault: the pages in use stay, but one may go out. */
    method GetPage(priority: int) returns (page: nat, ghost evs: seq<Event>)
      requires Good() && 0 <= priority <= 3 && CanAlloc()
      modifies this`hand, this`pte, this`freeList, this`lost, frames, slotUsed, sw.d, sw.d.queue, sw.slotMode
      ensures Good() && Available(page) && pte.Keys == old(pte).Keys
      ensures lost == LostAfter(old(lost), evs) && Happened(old(Now()), Now(), evs, sw.raidMode)
      ensures forall l :: Kept(old(Now()), Now(), evs, l)
    {
      page, evs := Kalloc(priority);
    }

    /** The frame of page k, if within the table, is in use, referenced and its own. */
    ghost predicate Tracked(k: Key)
      reads this`pte, frames
    {
      k in pte &&
      forall i :: 0 <= i < frames.Length && FIRST_PAGE + i == pte[k].ppn ==> frames[i] == Frame(true, Owner(k), true)
    }

    /** track_frame: pages past the frame table are not tracked. */
    method TrackFrame(k: Key, page: nat)
      requires Good() && k in pte && Resident(pte[k]) && pte[k].ppn == page
      modifies frames
      ensures Good()
      ensures forall i :: 0 <= i < frames.Length ==>
        frames[i] == if FIRST_PAGE + i == page then Frame(true, Owner(k), true) else old(frames[i])
    {
      var index := page - FIRST_PAGE;
      if 0 <= index < frames.Length {
        frames[index] := Frame(true, Owner(k), true);
      }
    }

    /** swap_in: read the slot, then free it. */
    method SwapIn(page: nat, slot: nat, priority: int)
      requires sw.Ready() && slotUsed.Length == NSWAP && slot < NSWAP
      requires HasPage(sw.d.store, page) && 0 <= priority <= 3
      modifies slotUsed, sw.d, sw.d.queue
      ensures sw.Ready() && slotUsed[..] == old(slotUsed[..])[slot := false]
      ensures ReadSlot(old(sw.d.store), sw.d.store, sw.slotMode[slot], slot, page)
    {
      sw.SwapRead(slot, page, priority);
      slotUsed[slot] := false;
    }

    /**
     The swapped-page branch of usertrap. Unless the page was swapped out in a mode
     that does not stripe, it comes back as it was.
     */
    method Fault(k: Key, priority: int) returns (ghost evs: seq<Event>)
      requires Good() && k in pte && pte[k].flags & PTE_SWAPPED != 0 && CanAlloc() && 0 <= priority <= 3
      modifies this`hand, this`pte, this`freeList, this`lost, this`content
      modifies frames, slotUsed, sw.d, sw.d.queue, sw.slotMode
      ensures Good() && k in pte && Resident(pte[k]) && Perms(pte[k].flags) == old(Perms(pte[k].flags)) && Tracked(k)
      ensures old(pte[k].ppn) < NSWAP && !slotUsed[old(pte[k].ppn)]
      ensures k in content && k in old(content)
      ensures Striped(old(sw.slotMode[pte[k].ppn])) ==> content[k] == old(content)[k]
      ensures lost == LostAfter(old(lost), evs) && Happened(old(Now()), Now(), evs, sw.raidMode)
      ensures forall l :: l != k ==> Kept(old(Now()), Now(), evs, l)
    {
      ghost var m := Now();
      assert PageOk(m, k);
      var page;
      page, evs := GetPage(priority);
      ghost var n := Now();
      assert Kept(m, n, evs, k);
      BringIn(k, page, priority);
      HappenedOn(m, n, Now(), evs, sw.raidMode, k);
      KeptOnAll(m, n, Now(), evs, [], k);
      assert evs + [] == evs;
    }

    method BringIn(k: Key, page: nat, priority: int)
      requires Good() && k in pte && Swapped(pte[k]) && Available(page) && 0 <= priority <= 3
      modifies this`pte, this`content, frames, slotUsed, sw.d, sw.d.queue
      ensures Good() && k in pte && Resident(pte[k]) && Perms(pte[k].flags) == old(Perms(pte[k].flags)) && Tracked(k)
      ensures old(pte[k].ppn) < NSWAP && !slotUsed[old(pte[k].ppn)]
      ensures k in content && k in old(content)
      ensures Striped(sw.slotMode[old(pte[k].ppn)]) ==> content[k] == old(content)[k]
      ensures pte == old(pte)[k := pte[k]]
      ensures forall l :: l != k ==> Kept(old(Now()), Now(), [], l)
    {
      ghost var m, fs := Now(), frames[..];
      assert PageOk(m, k);
      var e := pte[k];
      SwapIn(page, e.ppn, priority);
      pte := pte[k := SwapInPte(e, page)];
      content := content[k := InMemory(sw.d.store, page)];
      PteRoundTrip(e, 0, page);
      InKeeps(m, k, page, sw.d.store);
      FramesKeep(fs, fs, m.pte, k, SwapInPte(e, page));
      assert Now() == SwappedIn(m, k, page, sw.d.store);
      TrackFrame(k, page);
      KeptBut(m, Now(), k, []);
    }

    /** vmfault on a page of the process that is neither mapped nor swapped: a fresh page of zeros. */
    method Lazy(k: Key, va: nat, size: nat, priority: int) returns (ok: bool, ghost evs: seq<Event>)
      requires Good() && k !in pte && (va < size ==> CanAlloc()) && 0 <= priority <= 3
      modifies this, frames, slotUsed, sw.d, sw.d.queue, sw.slotMode
      ensures Good() && ok == (va < size)
      ensures !ok ==> Now() == old(Now()) && hand == old(hand) && frames[..] == old(frames[..]) && evs == []
      ensures ok ==> flat == old(flat)[k := Blank(Memset(0))] && k !in lost && perms == old(perms)[k := LAZY_FLAGS]
      ensures ok ==> k in pte && Resident(pte[k]) && Perms(pte[k].flags) == LAZY_FLAGS && Tracked(k)
      ensures lost == LostAfter(old(lost), evs) && Happened(old(Now()), Now(), evs, sw.raidMode)
      ensures forall l :: l != k ==> Kept(old(Now()), Now(), evs, l)
    {
      ghost var m := Now();
      evs := [];
      if va >= size {
        KeptSame(m, m);
        return false, [];
      }
      var page;
      page, evs := GetPage(priority);
      ghost var n, outs := Now(), evs;
      MapFresh(k, page);
      HappenedOn(m, n, Now(), outs, sw.raidMode, k);
      evs := outs + [New(k)];
      LostAfterMore(m.lost, outs, [New(k)]);
      KeptOnAll(m, n, Now(), outs, [New(k)], k);
      return true, evs;
    }

    method MapFresh(k: Key, page: nat)
      requires Good() && k !in pte && Available(page)
      modifies this`pte, this`content, this`perms, this`flat, this`lost, frames, sw.d`store
      ensures Good() && flat == old(flat)[k := Blank(Memset(0))] && perms == old(perms)[k := LAZY_FLAGS]
      ensures lost == old(lost) - {k} && k in pte && pte == old(pte)[k := pte[k]]
      ensures Resident(pte[k]) && Perms(pte[k].flags) == LAZY_FLAGS && Tracked(k)
      ensures forall l :: l != k ==> Kept(old(Now()), Now(), [New(k)], l)
    {
      ghost var m := Now();
      Enter(k, page);
      KeptBut(m, Now(), k, [New(k)]);
      TrackFrame(k, page);
    }

    /** memset and mappages. */
    method Enter(k: Key, page: nat)
      requires Good() && k !in pte && Available(page)
      modifies this`pte, this`content, this`perms, this`flat, this`lost, sw.d`store
      ensures Good() && Now() == Mapped(old(Now()), k, page, Memset(0))
      ensures Resident(pte[k]) && Perms(pte[k].flags) == LAZY_FLAGS
    {
      ghost var m := Now();
      MapKeeps(m, k, page, Memset(0));
      LazyFlags(page);
      pte := pte[k := Pte(page, LAZY_FLAGS | PTE_V)];
      sw.d.store := Filled(sw.d.store, page, Memset(0));
      content, perms := content[k := Blank(Memset(0))], perms[k := LAZY_FLAGS];
      flat, lost := flat[k := Blank(Memset(0))], lost - {k};
      FramesAdd(frames[..], m.pte, k, pte[k]);
    }

    /** uvmunmap of one page, with do_free. */
    method Drop(k: Key)
      requires Good()
      modifies this`pte, this`freeList, this`flat, frames, slotUsed, sw.d`store
      ensures Good() && pte == old(pte) - {k} && flat == old(flat) - {k}
      ensures k in old(pte) && Resident(old(pte)[k]) ==>
        && freeList == [old(pte)[k].ppn] + old(freeList) && frames[..] == Untracked(old(frames[..]), old(pte)[k].ppn)
        && slotUsed[..] == old(slotUsed[..])
      ensures k in old(pte) && Swapped(old(pte)[k]) ==>
        && freeList == old(freeList) && frames[..] == old(frames[..])
        && old(pte)[k].ppn < NSWAP && slotUsed[..] == old(slotUsed[..])[old(pte)[k].ppn := false]
      ensures k !in old(pte) ==>
        freeList == old(freeList) && frames[..] == old(frames[..]) && slotUsed[..] == old(slotUsed[..])
    {
      if k in pte {
        var e := pte[k];
        ghost var m, fs := Now(), frames[..];
        assert PageOk(m, k);
        if e.flags & PTE_V == 0 {
          slotUsed[e.ppn] := false;
        }
        DropKeeps(m, k, slotUsed[..]);
        pte := pte - {k};
        flat := flat - {k};
        MemoryFrame(m.(pte := pte, used := slotUsed[..]), Now());
        forall i: nat {:trigger fs[i]} | i < |fs| && (Resident(e) ==> FIRST_PAGE + i != e.ppn)
          ensures FrameOk(fs[i], i, pte)
        {
          assert FrameOk(fs[i], i, m.pte);
        }
        if Resident(e) {
          Kfree(e.ppn);
        }
      }
    }

    /** A user program writes a block of a resident page. */
    method UserWrite(k: Key, b: nat, x: Block)
      requires Good() && k in pte && Resident(pte[k]) && b < PAGE_BLOCKS
      modifies this`content, this`flat, sw.d`store
      ensures Good() && k in old(content) && b < |old(content)[k]| && k in old(flat) && b < |old(flat)[k]|
      ensures content == old(content)[k := old(content)[k][b := x]] && flat == old(flat)[k := old(flat)[k][b := x]]
      ensures Shows(k) && forall l :: l != k ==> Kept(old(Now()), Now(), [], l)
    {
      ghost var m := Now();
      assert PageOk(m, k);
      WriteKeeps(m, k, b, x);
      sw.d.store := sw.d.store.(mem := sw.d.store.mem[Buf(pte[k].ppn, b) := x]);
      content, flat := content[k := content[k][b := x]], flat[k := flat[k][b := x]];
      assert Now() == Written(m, k, b, x);
      assert PageOk(Now(), k);
      KeptBut(m, Now(), k, []);
    }

    /** The page of k is in memory and holds what content says. */
    ghost predicate Shows(k: Key)
      reads this, sw, sw.d
    {
      && k in pte && Resident(pte[k]) && k in content
      && HasPage(sw.d.store, pte[k].ppn) && InMemory(sw.d.store, pte[k].ppn) == content[k]
    }

    /** An access to address va in page k goes on: the page is there, it can be brought in, or the access is refused. */
    ghost predicate GoesOn(k: Key, va: nat, size: nat)
      reads this`pte, this`freeList, frames, slotUsed
    {
      (k in pte && Resident(pte[k])) || (k !in pte && va >= size) || CanAlloc()
    }

    /**
     An access to page k, whether mapped, swapped or absent; false when the kernel
     stops in kalloc. A page that is not the process's own is not mapped by it.
     */
    method Touch(k: Key, va: nat, size: nat, priority: int) returns (ok: bool, ghost evs: seq<Event>)
      requires Good() && 0 <= priority <= 3
      modifies this, frames, slotUsed, sw.d, sw.d.queue, sw.slotMode
      ensures Good() && ok == old(GoesOn(k, va, size))
      ensures !ok ==> Now() == old(Now()) && hand == old(hand) && frames[..] == old(frames[..]) && evs == []
      ensures ok ==> flat == FlatTouch(old(flat), k, va < size)
      ensures ok ==> perms == PermsTouch(old(flat), old(perms), k, va < size)
      ensures ok ==> (k in pte <==> k in old(pte) || va < size) && (k in pte ==> Shows(k))
      ensures ok && k in old(pte) ==> Perms(pte[k].flags) == Perms(old(pte)[k].flags)
      ensures ok && k in old(pte) && old(Recoverable(k)) ==> k in old(content) && content[k] == old(content)[k]
      ensures Anew(old(Now()), Now(), sw.raidMode)
      ensures lost == LostAfter(old(lost), evs) && Happened(old(Now()), Now(), evs, sw.raidMode)
      ensures forall l :: l != k ==> Kept(old(Now()), Now(), evs, l)
    {
      ghost var m := Now();
      assert PageOk(m, k);
      evs := [];
      KeptSame(m, m);
      if k in pte && Resident(pte[k]) { return true, []; }
      var can := MayAlloc();
      if !can && (k in pte || va < size) { return false, []; }
      evs := Bring(k, va, size, priority);
      LostHow(m, Now(), evs, sw.raidMode);
      ok := true;
    }

    /** The page fault of an access to a page that is not in memory. */
    method Bring(k: Key, va: nat, size: nat, priority: int) returns (ghost evs: seq<Event>)
      requires Good() && 0 <= priority <= 3 && (k in pte ==> !Resident(pte[k]))
      requires k in pte || va < size ==> CanAlloc()
      modifies this, frames, slotUsed, sw.d, sw.d.queue, sw.slotMode
      ensures Good() && flat == FlatTouch(old(flat), k, va < size)
      ensures perms == PermsTouch(old(flat), old(perms), k, va < size)
      ensures (k in pte <==> k in old(pte) || va < size) && (k in pte ==> Shows(k))
      ensures k in old(pte) ==> Perms(pte[k].flags) == Perms(old(pte)[k].flags)
      ensures k in old(pte) && old(Recoverable(k)) ==> k in old(content) && content[k] == old(content)[k]
      ensures lost == LostAfter(old(lost), evs) && Happened(old(Now()), Now(), evs, sw.raidMode)
      ensures forall l :: l != k ==> Kept(old(Now()), Now(), evs, l)
    {
      assert PageOk(Now(), k);
      if k in pte && pte[k].flags & PTE_SWAPPED != 0 {
        evs := Fault(k, priority);
        assert PageOk(Now(), k);
      } else {
        ghost var mapped;
        mapped, evs := Lazy(k, va, size, priority);
        assert PageOk(Now(), k);
      }
    }

    /** The page is in memory, or in a slot of a mode that stripes. */
    ghost predicate Recoverable(k: Key)
      reads this, sw, sw.slotMode
    {
      k in pte && (Swapped(pte[k]) ==> pte[k].ppn < sw.slotMode.Length && Striped(sw.slotMode[pte[k].ppn]))
    }

    method MayAlloc() returns (b: bool)
      ensures b == CanAlloc()
    {
      if freeList != [] { return true; }
      var anyFrame := false;
      for i := 0 to frames.Length
        invariant anyFrame <==> exists j: nat :: j < i && frames[..][j].inUse
      {
        assert frames[..][i] == frames[i];
        if frames[i].inUse { anyFrame := true; }
      }
      var anySlot := false;
      for i := 0 to slotUsed.Length
        invariant anySlot <==> exists j: nat :: j < i && !slotUsed[..][j]
      {
        assert slotUsed[..][i] == slotUsed[i];
        if !slotUsed[i] { anySlot := true; }
      }
      b := anyFrame && anySlot;
    }

    method Act(op: Op) returns (ok: bool, ghost evs: seq<Event>)
      requires Good() && WellFormed(op)
      modifies this, frames, slotUsed, sw, sw.d, sw.d.queue, sw.slotMode
      ensures Good() && ok == (Touches(op) ==> old(GoesOn(op.k, op.va, op.size)))
      ensures !ok ==> Now() == old(Now()) && hand == old(hand) && frames[..] == old(frames[..]) && evs == []
      ensures ok ==> Step(old(Now()), Now(), evs, op, old(sw.raidMode))
      ensures ok && Touches(op) ==>
        (op.k in pte <==> op.k in old(pte) || op.va < op.size) && (op.k in pte ==> Shows(op.k))
      ensures Anew(old(Now()), Now(), old(sw.raidMode))
      ensures sw.raidMode == if ok then ModeAfter(old(sw.raidMode), op) else old(sw.raidMode)
    {
      ghost var m := Now();
      match op {
        case Access(k, va, size, priority) => ok, evs := Touch(k, va, size, priority);
        case Write(k, va, size, priority, b, x) => ok, evs := TouchWrite(k, va, size, priority, b, x);
        case _ =>
          Control(op);
          ok, evs := true, [];
      }
      LostHow(m, Now(), evs, old(sw.raidMode));
    }

    /** The operations that need no page. */
    method Control(op: Op)
      requires Good() && !Touches(op)
      modifies this, frames, slotUsed, sw, sw.d, sw.slotMode
      ensures Good() && Step(old(Now()), Now(), [], op, old(sw.raidMode))
      ensures sw.raidMode == ModeAfter(old(sw.raidMode), op)
    {
      ghost var m := Now();
      match op {
        case Remove(k) =>
          Drop(k);
          KeptBut(m, Now(), k, []);
        case SetMode(mode) =>
          SetRaidMode(mode);
          KeptSame(m, Now());
        case SetPolicy(policy) =>
          sw.d.policy := policy;
          KeptSame(m, Now());
      }
    }

    method TouchWrite(k: Key, va: nat, size: nat, priority: int, b: nat, x: Block)
      returns (ok: bool, ghost evs: seq<Event>)
      requires Good() && 0 <= priority <= 3 && b < PAGE_BLOCKS
      modifies this, frames, slotUsed, sw.d, sw.d.queue, sw.slotMode
      ensures Good() && ok == old(GoesOn(k, va, size))
      ensures !ok ==> Now() == old(Now()) && hand == old(hand) && frames[..] == old(frames[..]) && evs == []
      ensures ok ==> flat == FlatStep(old(flat), Write(k, va, size, priority, b, x))
      ensures ok ==> perms == PermsTouch(old(flat), old(perms), k, va < size)
      ensures ok ==> (k in pte <==> k in old(pte) || va < size) && (k in pte ==> Shows(k))
      ensures lost == LostAfter(old(lost), evs) && Happened(old(Now()), Now(), evs, sw.raidMode)
      ensures forall l :: l != k ==> Kept(old(Now()), Now(), evs, l)
    {
      ghost var m := Now();
      ok, evs := Touch(k, va, size, priority);
      if ok && k in pte {
        ghost var n := Now();
        UserWrite(k, b, x);
        KeptOnAll(m, n, Now(), evs, [], k);
        assert evs + [] == evs;
      }
    }

    method SetRaidMode(mode: int)
      requires Good()
      modifies sw`raidMode
      ensures Good() && sw.raidMode == mode
    {
      sw.raidMode := mode;
    }

    /** The kernel stops in kalloc at this operation. */
    ghost predicate Stuck(op: Op)
      reads this`pte, this`freeList, frames, slotUsed
    {
      Touches(op) && !GoesOn(op.k, op.va, op.size)
    }

    /**
     Demand paging refines a flat memory: whatever the eviction order, the disk
     schedule and the mode changes, the pages that were never swapped out in a
     mode without striping hold what a memory that never swaps would hold. The run
     ends early only where the kernel stops.
     */
    method RunAll(ops: seq<Op>) returns (done: nat, ghost trail: seq<Memory>, ghost es: seq<seq<Event>>)
      requires Good() && forall i :: 0 <= i < |ops| ==> WellFormed(ops[i])
      modifies this, frames, slotUsed, sw, sw.d, sw.d.queue, sw.slotMode
      ensures Good() && Ran(old(sw.raidMode), ops, done, trail, es) && trail[0] == old(Now()) && trail[done] == Now()
      ensures done < |ops| ==> Stuck(ops[done])
      ensures flat == Flat(old(flat), ops, done) && perms == FlatPerms(old(flat), old(perms), ops, done)
      ensures lost == LostAfter(old(lost), All(es)) && sw.raidMode == Mode(old(sw.raidMode), ops, done)
      ensures forall k :: k in pte ==> k in perms && Perms(pte[k].flags) == perms[k] && (Resident(pte[k]) ==> Shows(k))
      ensures forall k :: k in pte && k !in lost ==> k in flat && k in content && content[k] == flat[k]
      ensures forall l :: Untouched(ops, done, l) ==> Kept(old(Now()), Now(), All(es), l)
    {
      done, trail, es := 0, [Now()], [];
      while done < |ops|
        invariant Good() && done <= |ops| && Ran(old(sw.raidMode), ops, done, trail, es)
        invariant trail[0] == old(Now()) && trail[done] == Now() && sw.raidMode == Mode(old(sw.raidMode), ops, done)
      {
        var ok;
        ghost var evs;
        ok, evs := Act(ops[done]);
        if !ok { break; }
        RanMore(old(sw.raidMode), ops, done, trail, es, Now(), evs);
        trail, es, done := trail + [Now()], es + [evs], done + 1;
      }
      RanFlat(old(sw.raidMode), ops, done, trail, es);
      forall k | k in pte
        ensures k in perms && Perms(pte[k].flags) == perms[k] && (Resident(pte[k]) ==> Shows(k))
        ensures k !in lost ==> k in flat && k in content && content[k] == flat[k]
      {
        assert PageOk(Now(), k);
      }
    }

    /**
     A page that is in memory, or in a slot of a mode that stripes, and that then goes
     out in such modes only, comes back with the same bytes and permissions at the
     next access, whatever happens to the other pages in between.
     */
    method RoundTrip(k: Key, ops: seq<Op>, va: nat, size: nat, priority: int)
      returns (ok: bool, ghost done: nat, ghost trail: seq<Memory>, ghost es: seq<seq<Event>>)
      requires Good() && (forall i :: 0 <= i < |ops| ==> WellFormed(ops[i])) && 0 <= priority <= 3
      requires k in pte && Untouched(ops, |ops|, k)
      modifies this, frames, slotUsed, sw, sw.d, sw.d.queue, sw.slotMode
      ensures Good() && Ran(old(sw.raidMode), ops, done, trail, es) && trail[0] == old(Now())
      ensures ok ==> done == |ops| && k in pte && Resident(pte[k]) && Perms(pte[k].flags) == Perms(old(pte)[k].flags)
      ensures !ok ==> trail[done] == Now() && if done < |ops| then Stuck(ops[done]) else !GoesOn(k, va, size)
      ensures ok && old(Recoverable(k)) && (forall e :: e in All(es) && e.Out? && e.k == k ==> Striped(e.mode)) ==>
        && k in old(content) && HasPage(sw.d.store, pte[k].ppn) && InMemory(sw.d.store, pte[k].ppn) == old(content)[k]
    {
      ghost var m := Now();
      assert PageOk(m, k);
      var ran;
      ran, trail, es := RunAll(ops);
      done, ok := ran, false;
      if ran == |ops| {
        ghost var n := Now();
        assert Kept(m, n, All(es), k) && PageOk(n, k);
        ghost var last;
        ok, last := Touch(k, va, size, priority);
      }
    }
  }
}
