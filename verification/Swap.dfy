/**
 Disk-backed swap of kernel/virtio_disk.c: the address arithmetic of the three
 RAID modes, and disk_swap_write and disk_swap_read through the request queue.
 */
module Swap {
  import opened DiskQueue

  const NSWAP := 4096            // NSWAPSPACE
  const PAGE_BLOCKS := 4         // PGSIZE / BSIZE
  const NDISKS := 4
  const SWAP_START := 20000
  const PER_MODE := 16384        // NSWAPBLOCKS_PER_MODE
  const PER_DISK := 4096         // BLOCKS_PER_DISK

  function RealBlock(mode: nat, disk: nat, phys: nat): nat {
    SWAP_START + mode * PER_MODE + disk * PER_DISK + phys
  }

  predicate InRegion(mode: nat, b: int) {
    SWAP_START + mode * PER_MODE <= b < SWAP_START + (mode + 1) * PER_MODE
  }

  /** The block of RAID 0 that holds block b of a slot. */
  function Stripe(slot: nat, b: nat): nat {
    var logical := slot * PAGE_BLOCKS + b;
    RealBlock(0, logical % NDISKS, logical / NDISKS)
  }

  /** Row, parity disk and physical offset of RAID 5 for the row that starts at block rs of a slot. */
  function Row(slot: nat, rs: nat): nat { (slot * PAGE_BLOCKS + rs) / (NDISKS - 1) }

  function Raid5Data(slot: nat, rs: nat, i: nat): nat {
    var row := Row(slot, rs);
    RealBlock(2, if i >= row % NDISKS then i + 1 else i, row / NDISKS)
  }

  function Raid5Parity(slot: nat, rs: nat): nat {
    RealBlock(2, Row(slot, rs) % NDISKS, Row(slot, rs) / NDISKS)
  }

  function Raid1Block(slot: nat, b: nat, mirror: bool): nat {
    var logical := slot * PAGE_BLOCKS + b;
    RealBlock(1, (logical + if mirror then 1 else 0) % NDISKS, logical / NDISKS)
  }

  /** RAID 0 never puts two page blocks at one address. */
  lemma StripesInjective(s: nat, b: nat, t: nat, c: nat)
    requires s < NSWAP && t < NSWAP && b < PAGE_BLOCKS && c < PAGE_BLOCKS
    ensures Stripe(s, b) == Stripe(t, c) <==> s == t && b == c
  {
  }

  /** The disk of a mode's region that an address lies on. */
  predicate OnDiskNo(mode: nat, disk: nat, x: int) {
    disk < NDISKS && 0 <= x - (SWAP_START + mode * PER_MODE + disk * PER_DISK) < PER_DISK
  }

  /** RAID 0 spreads the four blocks of a page over the four disks, all at the same place. */
  lemma StripesSpread(slot: nat, b: nat)
    requires slot < NSWAP && b < PAGE_BLOCKS
    ensures OnDiskNo(0, b, Stripe(slot, b)) && Stripe(slot, b) - Stripe(slot, 0) == b * PER_DISK
  {
    assert slot * PAGE_BLOCKS + b == NDISKS * slot + b;
  }

  /** RAID 1 puts a block and its mirror on neighbouring disks. */
  lemma MirrorsSpread(slot: nat, b: nat)
    requires slot < NSWAP && b < PAGE_BLOCKS
    ensures OnDiskNo(1, b, Raid1Block(slot, b, false)) && OnDiskNo(1, (b + 1) % NDISKS, Raid1Block(slot, b, true))
  {
    assert slot * PAGE_BLOCKS + b == NDISKS * slot + b;
  }

  /** RAID 5 puts the data blocks of a row and its parity on four different disks; the parity moves with the row. */
  lemma RowsSpread(slot: nat, rs: nat, i: nat, k: nat)
    requires slot < NSWAP && rs < PAGE_BLOCKS && i < k < NDISKS - 1
    ensures exists d: nat, e: nat, f: nat ::
      && OnDiskNo(2, d, Raid5Data(slot, rs, i)) && OnDiskNo(2, e, Raid5Data(slot, rs, k))
      && OnDiskNo(2, f, Raid5Parity(slot, rs)) && d != e && d != f && e != f && f == Row(slot, rs) % NDISKS
  {
    var row := Row(slot, rs);
    var f := row % NDISKS;
    var d, e := if i >= f then i + 1 else i, if k >= f then k + 1 else k;
    assert row / NDISKS < PER_DISK;
    assert OnDiskNo(2, d, Raid5Data(slot, rs, i)) && OnDiskNo(2, e, Raid5Data(slot, rs, k));
    assert OnDiskNo(2, f, Raid5Parity(slot, rs));
  }

  /** The mirror of a block lies where the next block of the page has its primary copy. */
  lemma Raid1Overlaps(slot: nat, b: nat)
    requires b < PAGE_BLOCKS
    ensures Raid1Block(slot, b, true) == Raid1Block(slot, (b + 1) % PAGE_BLOCKS, false)
  {
    assert slot * PAGE_BLOCKS + b == NDISKS * slot + b;
  }

  /** Unless a page's rows fall in different groups of NDISKS, the second row's parity lies on a block of the first. */
  lemma Raid5Overlaps(slot: nat)
    requires Row(slot, 0) % NDISKS != NDISKS - 1
    ensures Raid5Parity(slot, 3) == Raid5Data(slot, 0, Row(slot, 0) % NDISKS)
  {
    var r := Row(slot, 0);
    assert Row(slot, 3) == r + 1;
    assert (r + 1) % NDISKS == r % NDISKS + 1 && (r + 1) / NDISKS == r / NDISKS;
  }

  /** Every mode stays inside its own region, and the regions are disjoint. */
  lemma RegionsDisjoint(slot: nat, b: nat, i: nat)
    requires slot < NSWAP && b < PAGE_BLOCKS && i < NDISKS - 1
    ensures InRegion(0, Stripe(slot, b))
    ensures InRegion(1, Raid1Block(slot, b, false)) && InRegion(1, Raid1Block(slot, b, true))
    ensures InRegion(2, Raid5Data(slot, b, i)) && InRegion(2, Raid5Parity(slot, b))
    ensures forall x: int, m: nat, n: nat {:trigger InRegion(m, x), InRegion(n, x)} ::
      InRegion(m, x) && InRegion(n, x) ==> m == n
  {
  }

  // Block-sized buffers: the parity buffer, and block b of a physical page
  const PARITY_BUF: nat := 0

  function Buf(page: nat, b: nat): nat { PAGE_BLOCKS * page + b + 1 }

  function Raid0Reqs(slot: nat, page: nat, write: bool, priority: int): (q: seq<Req>)
    ensures |q| == PAGE_BLOCKS
  {
    seq(PAGE_BLOCKS, b requires 0 <= b < PAGE_BLOCKS => Req(true, Stripe(slot, b), write, priority, Buf(page, b)))
  }

  /** Any mode other than 1 and 2 is treated as RAID 0, both ways. */
  predicate Striped(mode: int) { mode != 1 && mode != 2 }

  /** Every swap block exists. */
  ghost predicate HasBlocks(s: Store) {
    forall b :: SWAP_START <= b < SWAP_START + 3 * PER_MODE ==> b in s.disk
  }

  ghost predicate HasPage(s: Store, page: nat) {
    forall b: nat {:trigger Buf(page, b)} :: b < PAGE_BLOCKS ==> Buf(page, b) in s.mem
  }

  predicate IsStripe(slot: nat, x: int) { exists b: nat :: b < PAGE_BLOCKS && x == Stripe(slot, b) }

  predicate OfPage(page: nat, a: nat) { exists b: nat :: b < PAGE_BLOCKS && a == Buf(page, b) }

  /** The page that reading a slot in RAID 0 yields, and the contents of a memory page. */
  function OnDisk(s: Store, slot: nat): seq<Block>
    requires HasBlocks(s) && slot < NSWAP
  {
    seq(PAGE_BLOCKS, b requires 0 <= b < PAGE_BLOCKS => RegionsDisjoint(slot, b, 0); s.disk[Stripe(slot, b)])
  }

  function InMemory(s: Store, page: nat): seq<Block>
    requires HasPage(s, page)
  {
    seq(PAGE_BLOCKS, b requires 0 <= b < PAGE_BLOCKS => s.mem[Buf(page, b)])
  }

  /** Same keys, same blocks outside a set, same buffers outside a set. */
  ghost predicate SameKeys(s: Store, t: Store) { t.disk.Keys == s.disk.Keys && t.mem.Keys == s.mem.Keys }

  lemma Raid0Addressed(q: seq<Req>, s: Store, slot: nat, page: nat, write: bool, priority: int, head: int)
    requires HasBlocks(s) && HasPage(s, page) && slot < NSWAP && 0 <= priority <= 3 && 0 <= head <= MAX_BLOCK
    requires FilledWith(q, Raid0Reqs(slot, page, write, priority))
    ensures Addressed(q, s) && InRange(q, head)
  {
  }

  /** Writing a page in RAID 0 puts its bytes on its stripes and touches no other block. */
  lemma Raid0Write(policy: Policy, q: seq<Req>, head: int, s: Store, slot: nat, page: nat, priority: int)
    requires HasBlocks(s) && HasPage(s, page) && slot < NSWAP
    requires FilledWith(q, Raid0Reqs(slot, page, true, priority)) && Addressed(q, s)
    ensures
      var t := Drained(policy, q, head, s);
      && SameKeys(s, t) && t.mem == s.mem && OnDisk(t, slot) == InMemory(s, page)
      && forall x :: x in s.disk && !IsStripe(slot, x) ==> t.disk[x] == s.disk[x]
  {
    forall i, j | 0 <= i < j < |q| && q[i].valid && q[j].valid
      ensures q[i].blockno != q[j].blockno
    {
      StripesInjective(slot, i, slot, j);
    }
    WritesLand(policy, q, head, s);
    var t := Drained(policy, q, head, s);
    forall b: nat | b < PAGE_BLOCKS
      ensures t.disk[Stripe(slot, b)] == s.mem[Buf(page, b)]
    {
      assert q[b].valid;
    }
    forall x | x in s.disk && !IsStripe(slot, x)
      ensures !TouchesBlock(q, x)
    {
    }
  }

  /** Reading a slot in RAID 0 brings back what its stripes hold and touches no other buffer. */
  lemma Raid0Read(policy: Policy, q: seq<Req>, head: int, s: Store, slot: nat, page: nat, priority: int)
    requires HasBlocks(s) && HasPage(s, page) && slot < NSWAP
    requires FilledWith(q, Raid0Reqs(slot, page, false, priority)) && Addressed(q, s)
    ensures
      var t := Drained(policy, q, head, s);
      && SameKeys(s, t) && t.disk == s.disk && InMemory(t, page) == OnDisk(s, slot)
      && forall a :: a in s.mem && !OfPage(page, a) ==> t.mem[a] == s.mem[a]
  {
    ReadsArrive(policy, q, head, s);
    var t := Drained(policy, q, head, s);
    forall b: nat | b < PAGE_BLOCKS
      ensures t.mem[Buf(page, b)] == s.disk[Stripe(slot, b)]
    {
      assert q[b].valid;
    }
    forall a | a in s.mem && !OfPage(page, a)
      ensures !TouchesBuffer(q, a)
    {
    }
  }

  /** Swapping out to a slot in this mode may change block x. */
  predicate MayWrite(mode: int, slot: nat, x: int) {
    if mode == 1 then InRegion(1, x) else if mode == 2 then InRegion(2, x) else IsStripe(slot, x)
  }

  /** Requests of RAID mode 1 or 2 for one page. */
  predicate Within(reqs: seq<Req>, mode: nat, page: nat, write: bool) {
    forall i :: 0 <= i < |reqs| ==>
      && reqs[i].valid && InRegion(mode, reqs[i].blockno) && reqs[i].write == write && 0 <= reqs[i].priority <= 3
      && (OfPage(page, reqs[i].data) || (write && reqs[i].data == PARITY_BUF))
  }

  lemma OtherAddressed(q: seq<Req>, head: int, s: Store, reqs: seq<Req>, mode: nat, page: nat, write: bool)
    requires HasBlocks(s) && HasPage(s, page) && PARITY_BUF in s.mem && 0 <= head <= MAX_BLOCK
    requires FilledWith(q, reqs) && Within(reqs, mode, page, write) && 1 <= mode <= 2
    ensures Addressed(q, s) && InRange(q, head)
  {
  }

  lemma OtherTouches(q: seq<Req>, reqs: seq<Req>, mode: nat, page: nat, write: bool, x: int, a: nat)
    requires FilledWith(q, reqs) && Within(reqs, mode, page, write)
    ensures WritesBlock(q, x) ==> write && InRegion(mode, x)
    ensures ReadsBuffer(q, a) ==> !write && OfPage(page, a)
  {
  }

  /** Modes 1 and 2 change nothing outside their region and, reading, nothing outside the page. */
  lemma OtherModes(policy: Policy, q: seq<Req>, head: int, s: Store, reqs: seq<Req>, mode: nat, page: nat, write: bool)
    requires FilledWith(q, reqs) && Within(reqs, mode, page, write) && 1 <= mode <= 2 && Addressed(q, s)
    ensures
      var t := Drained(policy, q, head, s);
      && SameKeys(s, t) && (if write then t.mem == s.mem else t.disk == s.disk)
      && (forall x :: x in s.disk && !InRegion(mode, x) ==> t.disk[x] == s.disk[x])
      && (forall a :: a in s.mem && !OfPage(page, a) ==> t.mem[a] == s.mem[a])
  {
    DrainFrame(policy, q, head, s);
    var t := Drained(policy, q, head, s);
    forall x | x in s.disk && !InRegion(mode, x)
      ensures t.disk[x] == s.disk[x]
    {
      OtherTouches(q, reqs, mode, page, write, x, 0);
    }
    forall a | a in s.mem && (write || !OfPage(page, a))
      ensures t.mem[a] == s.mem[a]
    {
      OtherTouches(q, reqs, mode, page, write, 0, a);
    }
    if write {
      assert t.mem == s.mem;
    } else {
      forall x | x in s.disk
        ensures t.disk[x] == s.disk[x]
      {
        OtherTouches(q, reqs, mode, page, write, x, 0);
      }
    }
  }

  class SwapArea {
    const d: Disk
    var raidMode: int
    const slotMode: array<int>   // slot_raid_mode

    constructor (d: Disk)
      ensures this.d == d && raidMode == 0 && fresh(slotMode) && slotMode.Length == NSWAP
      ensures forall i :: 0 <= i < NSWAP ==> slotMode[i] == 0
    {
      this.d, raidMode := d, 0;
      slotMode := new int[NSWAP](_ => 0);
    }

    /** The queue is empty and the swap blocks exist. */
    ghost predicate Ready()
      reads this, d, d.queue
    {
      && slotMode.Length == NSWAP && d.queue.Length >= 2 * PAGE_BLOCKS && d.Holds([])
      && 0 <= d.head <= MAX_BLOCK && PARITY_BUF in d.store.mem && HasBlocks(d.store)
    }

    /** The loops of raid0_write_page and raid0_read_page. */
    method QueueRaid0(slot: nat, page: nat, write: bool, priority: int)
      requires d.Holds([]) && d.queue.Length >= PAGE_BLOCKS
      modifies d.queue
      ensures d.Holds(Raid0Reqs(slot, page, write, priority))
    {
      ghost var reqs := Raid0Reqs(slot, page, write, priority);
      for b := 0 to PAGE_BLOCKS
        invariant d.Holds(reqs[..b])
      {
        var logical := slot * PAGE_BLOCKS + b;
        d.Append(RealBlock(0, logical % NDISKS, logical / NDISKS), write, Buf(page, b), priority, reqs[..b]);
        assert reqs[..b + 1] == reqs[..b] + [reqs[b]];
      }
      assert reqs[..PAGE_BLOCKS] == reqs;
    }

    method WriteRaid0(slot: nat, page: nat, priority: int)
      requires Ready() && HasPage(d.store, page) && slot < NSWAP && 0 <= priority <= 3
      modifies d, d.queue
      ensures Ready() && SameKeys(old(d.store), d.store) && d.store.mem == old(d.store.mem)
      ensures OnDisk(d.store, slot) == old(InMemory(d.store, page))
      ensures forall x :: x in d.store.disk && !IsStripe(slot, x) ==> d.store.disk[x] == old(d.store.disk)[x]
    {
      QueueRaid0(slot, page, true, priority);
      Raid0Addressed(d.queue[..], d.store, slot, page, true, priority, d.head);
      Raid0Write(d.policy, d.queue[..], d.head, d.store, slot, page, priority);
      d.RunQueue();
    }

    method ReadRaid0(slot: nat, page: nat, priority: int)
      requires Ready() && HasPage(d.store, page) && slot < NSWAP && 0 <= priority <= 3
      modifies d, d.queue
      ensures Ready() && SameKeys(old(d.store), d.store) && d.store.disk == old(d.store.disk)
      ensures InMemory(d.store, page) == old(OnDisk(d.store, slot))
      ensures forall a :: a in d.store.mem && !OfPage(page, a) ==> d.store.mem[a] == old(d.store.mem)[a]
    {
      QueueRaid0(slot, page, false, priority);
      Raid0Addressed(d.queue[..], d.store, slot, page, false, priority, d.head);
      Raid0Read(d.policy, d.queue[..], d.head, d.store, slot, page, priority);
      d.RunQueue();
    }

    /** raid1_write_page, with mirrors, or raid1_read_page, without. */
    method QueueRaid1(slot: nat, page: nat, write: bool, priority: int) returns (ghost reqs: seq<Req>)
      requires d.Holds([]) && d.queue.Length >= 2 * PAGE_BLOCKS && slot < NSWAP && 0 <= priority <= 3
      modifies d.queue
      ensures d.Holds(reqs) && Within(reqs, 1, page, write)
    {
      reqs := [];
      for b := 0 to PAGE_BLOCKS
        invariant d.Holds(reqs) && Within(reqs, 1, page, write) && |reqs| <= 2 * b
      {
        RegionsDisjoint(slot, b, 0);
        var logical := slot * PAGE_BLOCKS + b;
        var disk, phys := logical % NDISKS, logical / NDISKS;
        d.Append(RealBlock(1, disk, phys), write, Buf(page, b), priority, reqs);
        reqs := reqs + [Req(true, RealBlock(1, disk, phys), write, priority, Buf(page, b))];
        if write {
          var mirror := (disk + 1) % NDISKS;
          d.Append(RealBlock(1, mirror, phys), true, Buf(page, b), priority, reqs);
          reqs := reqs + [Req(true, RealBlock(1, mirror, phys), true, priority, Buf(page, b))];
        }
      }
    }

    /** raid5_write_page, with one parity block per row, or raid5_read_page, without. */
    method QueueRaid5(slot: nat, page: nat, write: bool, priority: int) returns (ghost reqs: seq<Req>)
      requires d.Holds([]) && d.queue.Length >= 2 * PAGE_BLOCKS && slot < NSWAP && 0 <= priority <= 3
      modifies d.queue
      ensures d.Holds(reqs) && Within(reqs, 2, page, write)
    {
      reqs := [];
      var rs := 0;
      while rs < PAGE_BLOCKS
        invariant rs == 0 || rs == 3 || rs == 6
        invariant d.Holds(reqs) && Within(reqs, 2, page, write)
        invariant |reqs| <= if rs == 0 then 0 else if rs == 3 then 4 else 6
        decreases 6 - rs
      {
        reqs := QueueRow(slot, page, rs, write, priority, reqs);
        rs := rs + 3;
      }
    }

    /** One stripe row of RAID 5 that starts at block rs of the page. */
    method QueueRow(slot: nat, page: nat, rs: nat, write: bool, priority: int, ghost before: seq<Req>)
      returns (ghost reqs: seq<Req>)
      requires d.Holds(before) && Within(before, 2, page, write) && |before| + PAGE_BLOCKS <= d.queue.Length
      requires slot < NSWAP && 0 <= priority <= 3 && (rs == 0 || rs == 3)
      modifies d.queue
      ensures d.Holds(reqs) && Within(reqs, 2, page, write)
      ensures |reqs| <= |before| + if rs == 0 then 4 else 2
    {
      reqs := before;
      var row := (slot * PAGE_BLOCKS + rs) / (NDISKS - 1);
      var parDisk, phys, inRow := row % NDISKS, row / NDISKS, 0;
      for i := 0 to NDISKS - 1
        invariant d.Holds(reqs) && Within(reqs, 2, page, write) && inRow <= i
        invariant |reqs| <= |before| + if rs == 0 then i else if i == 0 then 0 else 1
      {
        if rs + i < PAGE_BLOCKS {
          RegionsDisjoint(slot, rs, inRow);
          var disk := inRow;
          if disk >= parDisk { disk := disk + 1; }
          d.Append(RealBlock(2, disk, phys), write, Buf(page, rs + i), priority, reqs);
          reqs := reqs + [Req(true, RealBlock(2, disk, phys), write, priority, Buf(page, rs + i))];
          inRow := inRow + 1;
        }
      }
      if write {
        RegionsDisjoint(slot, rs, 0);
        d.Append(RealBlock(2, parDisk, phys), true, PARITY_BUF, priority, reqs);
        reqs := reqs + [Req(true, RealBlock(2, parDisk, phys), true, priority, PARITY_BUF)];
      }
    }

    /** disk_swap_write. */
    method SwapWrite(slot: nat, page: nat, priority: int)
      requires Ready() && HasPage(d.store, page) && slot < NSWAP && 0 <= priority <= 3
      modifies d, d.queue, slotMode
      ensures Ready() && SameKeys(old(d.store), d.store) && d.store.mem == old(d.store.mem)
      ensures slotMode[..] == old(slotMode[..])[slot := raidMode]
      ensures Striped(raidMode) ==> OnDisk(d.store, slot) == old(InMemory(d.store, page))
      ensures forall x :: x in d.store.disk && !MayWrite(raidMode, slot, x) ==> d.store.disk[x] == old(d.store.disk)[x]
    {
      slotMode[slot] := raidMode;
      if raidMode == 1 {
        ghost var reqs := QueueRaid1(slot, page, true, priority);
        OtherAddressed(d.queue[..], d.head, d.store, reqs, 1, page, true);
        OtherModes(d.policy, d.queue[..], d.head, d.store, reqs, 1, page, true);
        d.RunQueue();
      } else if raidMode == 2 {
        ghost var reqs := QueueRaid5(slot, page, true, priority);
        OtherAddressed(d.queue[..], d.head, d.store, reqs, 2, page, true);
        OtherModes(d.policy, d.queue[..], d.head, d.store, reqs, 2, page, true);
        d.RunQueue();
      } else {
        WriteRaid0(slot, page, priority);
      }
    }

    /** disk_swap_read: the mode recorded for the slot decides. */
    method SwapRead(slot: nat, page: nat, priority: int)
      requires Ready() && HasPage(d.store, page) && slot < NSWAP && 0 <= priority <= 3
      modifies d, d.queue
      ensures Ready() && SameKeys(old(d.store), d.store) && d.store.disk == old(d.store.disk)
      ensures Striped(slotMode[slot]) ==> InMemory(d.store, page) == old(OnDisk(d.store, slot))
      ensures forall a :: a in d.store.mem && !OfPage(page, a) ==> d.store.mem[a] == old(d.store.mem)[a]
    {
      var mode := slotMode[slot];
      if mode == 1 {
        ghost var reqs := QueueRaid1(slot, page, false, priority);
        OtherAddressed(d.queue[..], d.head, d.store, reqs, 1, page, false);
        OtherModes(d.policy, d.queue[..], d.head, d.store, reqs, 1, page, false);
        d.RunQueue();
      } else if mode == 2 {
        ghost var reqs := QueueRaid5(slot, page, false, priority);
        OtherAddressed(d.queue[..], d.head, d.store, reqs, 2, page, false);
        OtherModes(d.policy, d.queue[..], d.head, d.store, reqs, 2, page, false);
        d.RunQueue();
      } else {
        ReadRaid0(slot, page, priority);
      }
    }
  }
}
