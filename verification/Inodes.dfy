/**
 Block allocation and file contents of kernel/fs.c: the free bitmap, the block
 maps of inodes, truncation, and reading and writing files.
 */
module Inodes {
  const BSIZE: nat := 1024
  const BPB: nat := 8192
  const NDIRECT: nat := 12
  const NINDIRECT: nat := 256
  const MAXFILE: nat := 268
  const UINT: nat := 0x1_0000_0000

  // addrs has NDIRECT + 1 entries, 0 for none; the last one names the indirect block
  datatype Inode = Inode(addrs: seq<nat>, size: nat)

  // A place that can hold a block number
  datatype Slot = Direct(ino: nat, k: nat) | Indirect(ino: nat, j: nat)

  // used: the bitmap; the first meta blocks hold the file system's own structures.
  // data and ptrs: a block's contents as bytes, and as the entries of an indirect block
  datatype Disk = Disk(
    meta: nat, used: seq<bool>, data: map<nat, seq<int>>, ptrs: map<nat, seq<nat>>,
    inodes: seq<Inode>, owner: map<nat, Slot>)

  function ZeroBytes(): (r: seq<int>)
    ensures |r| == BSIZE && forall i :: 0 <= i < BSIZE ==> r[i] == 0
  {
    seq(BSIZE, _ => 0)
  }

  function ZeroPtrs(): (r: seq<nat>)
    ensures |r| == NINDIRECT && forall i :: 0 <= i < NINDIRECT ==> r[i] == 0
  {
    seq(NINDIRECT, _ => 0)
  }

  /** The block number in a slot, 0 for none. */
  function Addr(d: Disk, a: Slot): nat {
    if a.ino >= |d.inodes| || |d.inodes[a.ino].addrs| != NDIRECT + 1 then 0
    else match a
      case Direct(ino, k) => if k <= NDIRECT then d.inodes[ino].addrs[k] else 0
      case Indirect(ino, j) => Entry(d, d.inodes[ino].addrs[NDIRECT], j)
  }

  function Entry(d: Disk, b: nat, j: nat): nat {
    if b != 0 && b in d.ptrs && j < NINDIRECT && j < |d.ptrs[b]| then d.ptrs[b][j] else 0
  }

  /** Where the number of the bn-th block of a file is kept. */
  function SlotFor(ino: nat, bn: nat): Slot {
    if bn < NDIRECT then Direct(ino, bn) else Indirect(ino, bn - NDIRECT)
  }

  function BlockOf(d: Disk, ino: nat, bn: nat): nat { Addr(d, SlotFor(ino, bn)) }

  // ---------- The invariant ----------

  ghost predicate Shaped(d: Disk) {
    && 0 < d.meta <= |d.used|
    && (forall i :: 0 <= i < |d.inodes| ==> |d.inodes[i].addrs| == NDIRECT + 1 && d.inodes[i].size <= MAXFILE * BSIZE)
    && (forall b: nat :: b < |d.used| ==> b in d.data && |d.data[b]| == BSIZE)
    && (forall b: nat :: b < |d.used| ==> b in d.ptrs && |d.ptrs[b]| == NINDIRECT)
  }

  /** A slot names an allocated block outside the file system's own, and is its owner. */
  ghost predicate SlotOk(d: Disk, a: Slot) {
    var b := Addr(d, a);
    b != 0 ==> d.meta <= b < |d.used| && b in d.owner && d.owner[b] == a
  }

  /** A bit is set exactly for the file system's own blocks and the blocks that a slot names. */
  ghost predicate BitOk(d: Disk, b: nat) {
    && (b in d.owner ==> d.meta <= b < |d.used| && Addr(d, d.owner[b]) == b)
    && (b < |d.used| ==> (d.used[b] <==> b < d.meta || b in d.owner))
  }

  /** A file has no holes. */
  ghost predicate DenseAt(d: Disk, ino: nat, bn: nat) {
    ino < |d.inodes| && bn * BSIZE < d.inodes[ino].size ==> BlockOf(d, ino, bn) != 0
  }

  ghost predicate Good(d: Disk) {
    && Shaped(d)
    && (forall a {:trigger SlotOk(d, a)} :: SlotOk(d, a))
    && (forall b: nat {:trigger BitOk(d, b)} :: BitOk(d, b))
  }

  ghost predicate Dense(d: Disk) {
    forall ino: nat, bn: nat {:trigger DenseAt(d, ino, bn)} :: DenseAt(d, ino, bn)
  }

  /** No two slots name the same block. */
  lemma NoSharing(d: Disk, a: Slot, c: Slot)
    requires Good(d) && a != c && Addr(d, a) != 0
    ensures Addr(d, a) != Addr(d, c)
  {
    assert SlotOk(d, a) && SlotOk(d, c);
  }

  /** A block is free exactly when it is not the file system's own and no slot names it. */
  lemma FreeIff(d: Disk, b: nat)
    requires Good(d) && b < |d.used|
    ensures !d.used[b] <==> b >= d.meta && forall a {:trigger Addr(d, a)} :: Addr(d, a) != b
  {
    assert BitOk(d, b);
    if !d.used[b] {
      forall a
        ensures Addr(d, a) != b
      {
        assert SlotOk(d, a);
      }
    }
  }

  // ---------- File contents ----------

  /** Byte x of a file, as if the file went on with zeros. */
  function ByteAt(d: Disk, ino: nat, x: nat): int {
    var b := BlockOf(d, ino, x / BSIZE);
    if b != 0 && b in d.data && x % BSIZE < |d.data[b]| then d.data[b][x % BSIZE] else 0
  }

  function Contents(d: Disk, ino: nat): seq<int>
    requires ino < |d.inodes|
  {
    seq(d.inodes[ino].size, x requires 0 <= x => ByteAt(d, ino, x))
  }

  // ---------- Allocating a block for a slot ----------

  /** The slot exists, and is empty. */
  predicate Open(d: Disk, a: Slot) {
    && a.ino < |d.inodes| && Addr(d, a) == 0
    && match a
       case Direct(_, k) => k <= NDIRECT
       case Indirect(_, j) => j < NINDIRECT && Addr(d, Direct(a.ino, NDIRECT)) != 0
  }

  /** Block b, zeroed and marked, in slot a. */
  function Put(d: Disk, a: Slot, b: nat): Disk
    requires Shaped(d) && (forall c {:trigger SlotOk(d, c)} :: SlotOk(d, c)) && Open(d, a) && b < |d.used|
  {
    var e := d.(
      used := d.used[b := true], data := d.data[b := ZeroBytes()], ptrs := d.ptrs[b := ZeroPtrs()],
      owner := d.owner[b := a]);
    match a
    case Direct(ino, k) => e.(inodes := d.inodes[ino := d.inodes[ino].(addrs := d.inodes[ino].addrs[k := b])])
    case Indirect(ino, j) =>
      assert SlotOk(d, Direct(ino, NDIRECT));
      var t := d.inodes[ino].addrs[NDIRECT];
      var entries: seq<nat> := e.ptrs[t][j := b];
      e.(ptrs := e.ptrs[t := entries])
  }

  lemma PutAddr(d: Disk, a: Slot, b: nat, c: Slot)
    requires Good(d) && Open(d, a) && b < |d.used| && !d.used[b]
    ensures Addr(Put(d, a, b), c) == if c == a then b else Addr(d, c)
  {
    FreeIff(d, b);
    assert SlotOk(d, Direct(a.ino, NDIRECT)) && SlotOk(d, Direct(c.ino, NDIRECT)) && SlotOk(d, c);
    assert Addr(d, Direct(c.ino, NDIRECT)) != b;
    if a.Indirect? && c.Indirect? && c.ino != a.ino {
      NoSharing(d, Direct(a.ino, NDIRECT), Direct(c.ino, NDIRECT));
    }
  }

  lemma PutKeeps(d: Disk, a: Slot, b: nat)
    requires Good(d) && Open(d, a) && b < |d.used| && !d.used[b]
    ensures Good(Put(d, a, b))
  {
    var e := Put(d, a, b);
    FreeIff(d, b);
    forall c
      ensures SlotOk(e, c)
    {
      assert SlotOk(d, c);
      PutAddr(d, a, b, c);
    }
    forall x: nat
      ensures BitOk(e, x)
    {
      assert BitOk(d, x);
      if x in e.owner { PutAddr(d, a, b, e.owner[x]); }
    }
  }

  /** Files read the same after an allocation, and the sizes are kept. */
  lemma PutBytes(d: Disk, a: Slot, b: nat, ino: nat, x: nat)
    requires Good(d) && Open(d, a) && b < |d.used| && !d.used[b]
    ensures ByteAt(Put(d, a, b), ino, x) == ByteAt(d, ino, x)
  {
    FreeIff(d, b);
    var c := SlotFor(ino, x / BSIZE);
    PutAddr(d, a, b, c);
    assert Addr(d, c) != b;
  }

  // ---------- Writing into a block ----------

  function Spliced(block: seq<int>, lo: nat, bytes: seq<int>): (r: seq<int>)
    ensures |r| == |block|
  {
    seq(|block|, i requires 0 <= i < |block| => if lo <= i < lo + |bytes| then bytes[i - lo] else block[i])
  }

  function Store(d: Disk, b: nat, lo: nat, bytes: seq<int>): Disk
    requires b in d.data
  {
    d.(data := d.data[b := Spliced(d.data[b], lo, bytes)])
  }

  lemma StoreKeeps(d: Disk, b: nat, lo: nat, bytes: seq<int>)
    requires Good(d) && b < |d.used|
    ensures Good(Store(d, b, lo, bytes))
  {
    var e := Store(d, b, lo, bytes);
    forall a
      ensures SlotOk(e, a) && Addr(e, a) == Addr(d, a)
    {
      assert SlotOk(d, a);
    }
    forall x: nat
      ensures BitOk(e, x)
    {
      assert BitOk(d, x);
    }
  }

  /** Bytes stored in the block at offset off of a file appear there, and nowhere else in any file. */
  lemma StoreBytes(d: Disk, ino: nat, off: nat, bytes: seq<int>, ino': nat, x: nat)
    requires Good(d) && ino < |d.inodes| && BlockOf(d, ino, off / BSIZE) != 0 && off % BSIZE + |bytes| <= BSIZE
    requires BlockOf(d, ino, off / BSIZE) in d.data
    ensures ByteAt(Store(d, BlockOf(d, ino, off / BSIZE), off % BSIZE, bytes), ino', x) ==
      if ino' == ino && off <= x < off + |bytes| then bytes[x - off] else ByteAt(d, ino', x)
  {
    var b := BlockOf(d, ino, off / BSIZE);
    var e := Store(d, b, off % BSIZE, bytes);
    assert SlotOk(d, SlotFor(ino, off / BSIZE));
    assert Addr(e, SlotFor(ino', x / BSIZE)) == Addr(d, SlotFor(ino', x / BSIZE));
    if ino' == ino && x / BSIZE == off / BSIZE {
      assert x % BSIZE - off % BSIZE == x - off;
    } else {
      SameBlock(off, x, |bytes|);
      NoSharing(d, SlotFor(ino, off / BSIZE), SlotFor(ino', x / BSIZE));
    }
  }

  lemma SameBlock(off: nat, x: nat, n: nat)
    requires off % BSIZE + n <= BSIZE
    ensures off <= x < off + n ==> x / BSIZE == off / BSIZE
  {
  }

  // ---------- Truncation ----------

  function NoAddrs(): (r: seq<nat>)
    ensures |r| == NDIRECT + 1 && forall i :: 0 <= i <= NDIRECT ==> r[i] == 0
  {
    seq(NDIRECT + 1, _ => 0)
  }

  predicate OwnedBy(d: Disk, ino: nat, b: nat) { b in d.owner && d.owner[b].ino == ino }

  function UsedWithout(d: Disk, ino: nat): seq<bool> {
    seq(|d.used|, b requires 0 <= b < |d.used| => d.used[b] && !OwnedBy(d, ino, b))
  }

  function OwnersWithout(d: Disk, ino: nat): map<nat, Slot> {
    map b | b in d.owner && !OwnedBy(d, ino, b) :: d.owner[b]
  }

  /** The disk without the blocks of an inode. */
  function Truncated(d: Disk, ino: nat): Disk
    requires ino < |d.inodes|
  {
    d.(used := UsedWithout(d, ino), owner := OwnersWithout(d, ino), inodes := d.inodes[ino := Inode(NoAddrs(), 0)])
  }

  lemma TruncAddr(d: Disk, ino: nat, a: Slot)
    requires Good(d) && ino < |d.inodes|
    ensures Addr(Truncated(d, ino), a) == if a.ino == ino then 0 else Addr(d, a)
  {
  }

  lemma TruncKeeps(d: Disk, ino: nat)
    requires Good(d) && ino < |d.inodes|
    ensures Good(Truncated(d, ino))
  {
    var e := Truncated(d, ino);
    forall a
      ensures SlotOk(e, a)
    {
      assert SlotOk(d, a);
      TruncAddr(d, ino, a);
    }
    forall b: nat
      ensures BitOk(e, b)
    {
      assert BitOk(d, b);
      if b in e.owner { TruncAddr(d, ino, e.owner[b]); }
    }
  }

  /** Some slot of the inode names block b. */
  ghost predicate Names(d: Disk, ino: nat, b: nat) {
    exists a: Slot {:trigger Addr(d, a)} :: a.ino == ino && Addr(d, a) == b
  }

  /** The freed blocks are exactly those the inode named; every other file reads the same. */
  lemma TruncFrees(d: Disk, ino: nat)
    requires Good(d) && ino < |d.inodes|
    ensures forall b: nat {:trigger d.used[b]} :: b < |d.used| ==>
      (d.used[b] && !Truncated(d, ino).used[b] <==> b != 0 && Names(d, ino, b))
    ensures forall ino': nat, x: nat {:trigger ByteAt(d, ino', x)} ::
      ino' != ino ==> ByteAt(Truncated(d, ino), ino', x) == ByteAt(d, ino', x)
    ensures Contents(Truncated(d, ino), ino) == []
  {
    forall b: nat | b < |d.used|
      ensures d.used[b] && !Truncated(d, ino).used[b] <==> b != 0 && Names(d, ino, b)
    {
      assert BitOk(d, b);
      assert BitOk(d, 0);
      if b != 0 && Names(d, ino, b) {
        var a: Slot :| a.ino == ino && Addr(d, a) == b;
        assert SlotOk(d, a);
      }
    }
    forall ino': nat, x: nat | ino' != ino
      ensures ByteAt(Truncated(d, ino), ino', x) == ByteAt(d, ino', x)
    {
      TruncAddr(d, ino, SlotFor(ino', x / BSIZE));
    }
  }

  // ---------- What the operations keep ----------

  ghost predicate SameByte(d: Disk, e: Disk, ino: nat, x: nat) { ByteAt(e, ino, x) == ByteAt(d, ino, x) }

  ghost predicate SlotStays(d: Disk, e: Disk, a: Slot) { Addr(d, a) != 0 ==> Addr(e, a) == Addr(d, a) }

  /** Blocks may have been added, but every file reads the same. */
  ghost predicate Grown(d: Disk, e: Disk) {
    && |e.used| == |d.used| && e.meta == d.meta && |e.inodes| == |d.inodes|
    && (forall i :: 0 <= i < |d.inodes| ==> e.inodes[i].size == d.inodes[i].size)
    && (forall ino: nat, x: nat {:trigger SameByte(d, e, ino, x)} :: SameByte(d, e, ino, x))
    && (forall a {:trigger SlotStays(d, e, a)} :: SlotStays(d, e, a))
  }

  lemma PutGrows(d: Disk, a: Slot, b: nat)
    requires Good(d) && Open(d, a) && b < |d.used| && !d.used[b]
    ensures Grown(d, Put(d, a, b))
  {
    var e := Put(d, a, b);
    forall ino: nat, x: nat
      ensures SameByte(d, e, ino, x)
    {
      PutBytes(d, a, b, ino, x);
    }
    forall c
      ensures SlotStays(d, e, c)
    {
      PutAddr(d, a, b, c);
    }
  }

  lemma GrownSelf(d: Disk)
    ensures Grown(d, d)
  {
  }

  lemma GrownTrans(d: Disk, e: Disk, f: Disk)
    requires Grown(d, e) && Grown(e, f)
    ensures Grown(d, f)
  {
    forall ino: nat, x: nat
      ensures SameByte(d, f, ino, x)
    {
      assert SameByte(d, e, ino, x) && SameByte(e, f, ino, x);
    }
    forall a
      ensures SlotStays(d, f, a)
    {
      assert SlotStays(d, e, a) && SlotStays(e, f, a);
    }
  }

  /** The order in which itrunc visits slots. */
  function Position(a: Slot): nat {
    match a
    case Direct(_, k) => if k < NDIRECT then k else MAXFILE + k - NDIRECT
    case Indirect(_, j) => NDIRECT + j
  }

  predicate Gone(d: Disk, ino: nat, done: nat, b: nat) { OwnedBy(d, ino, b) && Position(d.owner[b]) < done }

  /** The bitmap when the first slots of an inode have been visited. */
  ghost predicate Cleared(d: Disk, ino: nat, done: nat, used: seq<bool>) {
    |used| == |d.used| && forall b: nat {:trigger used[b]} ::
      b < |used| ==> used[b] == (d.used[b] && !Gone(d, ino, done, b))
  }

  lemma ClearNext(d: Disk, ino: nat, a: Slot, used: seq<bool>)
    requires Good(d) && a.ino == ino && Cleared(d, ino, Position(a), used)
      && (a.Direct? ==> a.k <= NDIRECT) && (a.Indirect? ==> a.j < NINDIRECT)
    ensures Addr(d, a) == 0 ==> Cleared(d, ino, Position(a) + 1, used)
    ensures Addr(d, a) != 0 ==>
      Addr(d, a) < |used| && used[Addr(d, a)] && Cleared(d, ino, Position(a) + 1, used[Addr(d, a) := false])
  {
    var c := Addr(d, a);
    assert SlotOk(d, a) && BitOk(d, c);
    forall b: nat | b < |used|
      ensures Gone(d, ino, Position(a) + 1, b) <==> Gone(d, ino, Position(a), b) || (c != 0 && b == c)
    {
      assert BitOk(d, b);
    }
  }

  lemma NothingIndirect(d: Disk, ino: nat, used: seq<bool>)
    requires Good(d) && Addr(d, Direct(ino, NDIRECT)) == 0 && Cleared(d, ino, NDIRECT, used)
    ensures Cleared(d, ino, MAXFILE + 1, used)
  {
    forall b: nat | b < |used|
      ensures Gone(d, ino, MAXFILE + 1, b) <==> Gone(d, ino, NDIRECT, b)
    {
      assert BitOk(d, b);
    }
  }

  lemma ClearedAll(d: Disk, ino: nat, used: seq<bool>)
    requires Good(d) && Cleared(d, ino, MAXFILE + 1, used)
    ensures used == UsedWithout(d, ino)
  {
    forall b: nat | b < |used|
      ensures used[b] == UsedWithout(d, ino)[b]
    {
      assert BitOk(d, b);
    }
  }

  ghost predicate Full(d: Disk) { forall b :: 0 <= b < |d.used| ==> d.used[b] }

  // ---------- Reading and writing ----------

  ghost predicate LandedAt(d: Disk, e: Disk, ino: nat, off: nat, src: seq<int>, w: nat, i: nat, x: nat)
    requires w <= |src|
  {
    ByteAt(e, i, x) == if i == ino && off <= x < off + w then src[x - off] else ByteAt(d, i, x)
  }

  /** Disk e has the first w bytes of src at offset off of a file, and is else as d. */
  ghost predicate Landed(d: Disk, e: Disk, ino: nat, off: nat, src: seq<int>, w: nat) {
    w <= |src| &&
    forall i: nat, x: nat {:trigger LandedAt(d, e, ino, off, src, w, i, x)} :: LandedAt(d, e, ino, off, src, w, i, x)
  }

  lemma LandNext(d: Disk, e: Disk, f: Disk, ino: nat, off: nat, src: seq<int>, w: nat, m: nat)
    requires Landed(d, e, ino, off, src, w) && Grown(e, f) && Good(f) && ino < |f.inodes| && w + m <= |src|
    requires BlockOf(f, ino, (off + w) / BSIZE) != 0 && BlockOf(f, ino, (off + w) / BSIZE) in f.data
    requires (off + w) % BSIZE + m <= BSIZE
    ensures Landed(d, Store(f, BlockOf(f, ino, (off + w) / BSIZE), (off + w) % BSIZE,
      src[w..w + m]), ino, off, src, w + m)
  {
    var g := Store(f, BlockOf(f, ino, (off + w) / BSIZE), (off + w) % BSIZE, src[w..w + m]);
    var z := w + m;
    forall i: nat, x: nat
      ensures LandedAt(d, g, ino, off, src, z, i, x)
    {
      assert LandedAt(d, e, ino, off, src, w, i, x) && SameByte(e, f, i, x);
      StoreBytes(f, ino, off + w, src[w..w + m], i, x);
    }
  }

  lemma LandGrown(d: Disk, e: Disk, f: Disk, ino: nat, off: nat, src: seq<int>, w: nat)
    requires Landed(d, e, ino, off, src, w) && Grown(e, f)
    ensures Landed(d, f, ino, off, src, w)
  {
    forall i: nat, x: nat
      ensures LandedAt(d, f, ino, off, src, w, i, x)
    {
      assert LandedAt(d, e, ino, off, src, w, i, x) && SameByte(e, f, i, x);
    }
  }

  ghost predicate SameAddr(d: Disk, e: Disk, a: Slot) { Addr(e, a) == Addr(d, a) }

  ghost predicate SameMap(d: Disk, e: Disk) {
    forall a {:trigger SameAddr(d, e, a)} :: SameAddr(d, e, a)
  }

  /** From d to e block numbers were only added, and none if the disk was full. */
  ghost predicate Since(d: Disk, e: Disk) {
    && (forall a {:trigger SlotStays(d, e, a)} :: SlotStays(d, e, a))
    && (Full(d) ==> e.used == d.used && SameMap(d, e))
  }

  lemma SinceGrown(d: Disk, e: Disk, f: Disk)
    requires Since(d, e) && Grown(e, f) && (Full(e) ==> f == e)
    ensures Since(d, f)
  {
    forall a
      ensures SlotStays(d, f, a)
    {
      assert SlotStays(d, e, a) && SlotStays(e, f, a);
    }
  }

  lemma SinceSame(d: Disk, e: Disk, f: Disk)
    requires Since(d, e) && SameMap(e, f) && f.used == e.used
    ensures Since(d, f)
  {
    forall a
      ensures SlotStays(d, f, a) && (Full(d) ==> SameAddr(d, f, a))
    {
      assert SlotStays(d, e, a) && SameAddr(e, f, a) && (Full(d) ==> SameAddr(d, e, a));
    }
  }

  lemma SameTrans(d: Disk, e: Disk, f: Disk)
    requires SameMap(d, e) && SameMap(e, f)
    ensures SameMap(d, f)
  {
    forall a
      ensures SameAddr(d, f, a)
    {
      assert SameAddr(d, e, a) && SameAddr(e, f, a);
    }
  }

  lemma SinceStart(d: Disk)
    ensures Since(d, d)
  {
  }

  /** A block that is missing now was missing then. */
  lemma MissingThen(d: Disk, e: Disk, ino: nat, bn: nat)
    requires Since(d, e) && BlockOf(e, ino, bn) == 0
    ensures BlockOf(d, ino, bn) == 0
  {
    assert SlotStays(d, e, SlotFor(ino, bn));
  }

  lemma CoverSame(d: Disk, e: Disk, ino: nat, top: nat, less: nat)
    requires Covered(d, ino, top) && SameMap(d, e) && less <= top
    ensures Covered(e, ino, less)
  {
    forall bn: nat
      ensures CoveredAt(e, ino, less, bn)
    {
      assert CoveredAt(d, ino, top, bn) && SameAddr(d, e, SlotFor(ino, bn));
    }
  }

  /** The write stops at a block that was and is missing. */
  predicate Stops(d: Disk, e: Disk, ino: nat, off: nat, w: nat) {
    BlockOf(d, ino, (off + w) / BSIZE) == 0 && BlockOf(e, ino, (off + w) / BSIZE) == 0
  }

  /** Every block of n bytes at offset off is there. */
  ghost predicate Present(d: Disk, ino: nat, off: nat, n: nat) {
    forall bn: nat {:trigger BlockOf(d, ino, bn)} ::
      off < (bn + 1) * BSIZE && bn * BSIZE < off + n ==> BlockOf(d, ino, bn) != 0
  }

  lemma PresentAt(d: Disk, ino: nat, off: nat, n: nat, w: nat)
    requires Present(d, ino, off, n) && w < n
    ensures BlockOf(d, ino, (off + w) / BSIZE) != 0
  {
  }

  ghost predicate CoveredAt(d: Disk, ino: nat, top: nat, bn: nat) { bn * BSIZE < top ==> BlockOf(d, ino, bn) != 0 }

  /** The blocks up to offset top of a file are there. */
  ghost predicate Covered(d: Disk, ino: nat, top: nat) {
    forall bn: nat {:trigger CoveredAt(d, ino, top, bn)} :: CoveredAt(d, ino, top, bn)
  }

  lemma CoverNext(d: Disk, e: Disk, ino: nat, off: nat, m: nat)
    requires Covered(d, ino, off) && Grown(d, e) && BlockOf(e, ino, off / BSIZE) != 0 && off % BSIZE + m <= BSIZE
    ensures Covered(e, ino, off + m)
  {
    var top := off + m;
    forall bn: nat
      ensures CoveredAt(e, ino, top, bn)
    {
      assert CoveredAt(d, ino, off, bn) && SlotStays(d, e, SlotFor(ino, bn));
    }
  }

  lemma KeepCover(d: Disk, e: Disk, ino: nat, top: nat)
    requires Covered(d, ino, top) && Grown(d, e)
    ensures Covered(e, ino, top)
  {
    forall bn: nat
      ensures CoveredAt(e, ino, top, bn)
    {
      assert CoveredAt(d, ino, top, bn) && SlotStays(d, e, SlotFor(ino, bn));
    }
  }

  lemma DenseNext(d: Disk, e: Disk)
    requires Dense(d) && Grown(d, e)
    ensures Dense(e)
  {
    forall ino: nat, bn: nat
      ensures DenseAt(e, ino, bn)
    {
      assert DenseAt(d, ino, bn) && SlotStays(d, e, SlotFor(ino, bn));
    }
  }

  lemma DenseStore(d: Disk, b: nat, lo: nat, bytes: seq<int>, ino: nat, top: nat)
    requires b in d.data
    ensures Dense(d) ==> Dense(Store(d, b, lo, bytes))
    ensures Covered(d, ino, top) ==> Covered(Store(d, b, lo, bytes), ino, top)
  {
    var e := Store(d, b, lo, bytes);
    assert forall a :: Addr(e, a) == Addr(d, a);
    forall i: nat, bn: nat
      ensures DenseAt(d, i, bn) ==> DenseAt(e, i, bn)
      ensures CoveredAt(d, i, top, bn) ==> CoveredAt(e, i, top, bn)
    {
    }
    if Dense(d) {
      assert forall i: nat, bn: nat {:trigger DenseAt(e, i, bn)} :: DenseAt(d, i, bn) && DenseAt(e, i, bn);
    }
    if Covered(d, ino, top) {
      assert forall bn: nat {:trigger CoveredAt(e, ino, top, bn)} ::
        CoveredAt(d, ino, top, bn) && CoveredAt(e, ino, top, bn);
    }
  }

  lemma WriteStart(d: Disk, ino: nat, off: nat, src: seq<int>)
    requires Dense(d) && ino < |d.inodes| && off <= d.inodes[ino].size
    ensures Covered(d, ino, off) && Landed(d, d, ino, off, src, 0)
  {
    forall bn: nat
      ensures CoveredAt(d, ino, off, bn)
    {
      assert DenseAt(d, ino, bn);
    }
    forall i: nat, x: nat
      ensures LandedAt(d, d, ino, off, src, 0, i, x)
    {
    }
  }

  /** The size field of a file, set. */
  function Sized(d: Disk, ino: nat, size: nat): Disk
    requires ino < |d.inodes|
  {
    d.(inodes := d.inodes[ino := d.inodes[ino].(size := size)])
  }

  lemma SizeKeeps(d: Disk, ino: nat, size: nat)
    requires Good(d) && ino < |d.inodes| && size <= MAXFILE * BSIZE && Covered(d, ino, size) && Dense(d)
    ensures Good(Sized(d, ino, size)) && Dense(Sized(d, ino, size))
    ensures forall i: nat, x: nat {:trigger ByteAt(d, i, x)} :: ByteAt(Sized(d, ino, size), i, x) == ByteAt(d, i, x)
  {
    var e := Sized(d, ino, size);
    forall a
      ensures Addr(e, a) == Addr(d, a) && SlotOk(e, a)
    {
      assert SlotOk(d, a);
    }
    forall b: nat
      ensures BitOk(e, b)
    {
      assert BitOk(d, b);
    }
    forall i: nat, bn: nat
      ensures DenseAt(e, i, bn)
    {
      assert DenseAt(d, i, bn) && CoveredAt(d, ino, size, bn);
    }
  }

  /** src in place of what s holds from off on. */
  function Splice(s: seq<int>, off: nat, src: seq<int>): seq<int>
    requires off <= |s|
  {
    s[..off] + src + (if off + |src| < |s| then s[off + |src|..] else [])
  }

  /** A file whose bytes from off on were overwritten reads as one sequence spliced into another. */
  lemma SpliceContents(d: Disk, e: Disk, ino: nat, off: nat, src: seq<int>)
    requires ino < |d.inodes| && ino < |e.inodes| && off <= d.inodes[ino].size
    requires Landed(d, e, ino, off, src, |src|)
    requires e.inodes[ino].size == if off + |src| > d.inodes[ino].size then off + |src| else d.inodes[ino].size
    ensures Contents(e, ino) == Splice(Contents(d, ino), off, src)
    ensures Contents(e, ino)[off..off + |src|] == src
  {
    var was, now := Contents(d, ino), Contents(e, ino);
    var want := Splice(was, off, src);
    forall x: nat | x < |now|
      ensures now[x] == want[x]
    {
      assert LandedAt(d, e, ino, off, src, |src|, ino, x);
    }
    assert now == want;
  }

  lemma ReadChunk(d: Disk, ino: nat, at: nat, m: nat)
    requires Good(d) && ino < |d.inodes| && at + m <= d.inodes[ino].size && at % BSIZE + m <= BSIZE
    requires var b := BlockOf(d, ino, at / BSIZE); b != 0 && b in d.data && |d.data[b]| == BSIZE
    ensures d.data[BlockOf(d, ino, at / BSIZE)][at % BSIZE..at % BSIZE + m] == Contents(d, ino)[at..at + m]
  {
  }

  lemma Joined(s: seq<int>, lo: nat, mid: nat, hi: nat)
    requires lo <= mid <= hi <= |s|
    ensures s[lo..mid] + s[mid..hi] == s[lo..hi] && |s[lo..hi]| == hi - lo
  {
  }

  lemma LandSized(d: Disk, e: Disk, ino: nat, off: nat, src: seq<int>, w: nat, sz: nat)
    requires Landed(d, e, ino, off, src, w) && ino < |e.inodes|
    ensures Landed(d, Sized(e, ino, sz), ino, off, src, w)
  {
    forall i: nat, x: nat
      ensures LandedAt(d, Sized(e, ino, sz), ino, off, src, w, i, x)
    {
      assert LandedAt(d, e, ino, off, src, w, i, x) && ByteAt(e, i, x) == ByteAt(Sized(e, ino, sz), i, x);
    }
  }

  /** Of n bytes at offset off, of which the first avail can be read: those in blocks that are read in full. */
  function Counted(off: nat, avail: nat, n: nat): nat {
    var past := (off + avail) % BSIZE;
    if avail == n then n else if past <= avail then avail - past else 0
  }

  /** writei's loop comes by here: at the start, at the end of a block or at the end. */
  predicate Boundary(off: nat, tot: nat, n: nat) { tot == 0 || tot == n || (off + tot) % BSIZE == 0 }

  /** tot is a boundary, and tot of w bytes are counted; only a proof that names Boundary or Counted unfolds these. */
  ghost predicate AtBoundary(off: nat, tot: nat, n: nat) {
    forall x {:trigger Boundary(off, x, n)} :: x == tot ==> Boundary(off, x, n)
  }

  ghost predicate CountIs(off: nat, w: nat, n: nat, tot: nat) {
    forall x {:trigger Counted(off, x, n)} :: x == w ==> tot == Counted(off, x, n)
  }

  lemma BoundaryNext(off: nat, tot: nat, n: nat)
    requires tot < n
    ensures AtBoundary(off, tot + ChunkLength(off + tot, n - tot), n)
  {
  }

  lemma BoundaryStart(off: nat, n: nat)
    ensures AtBoundary(off, 0, n)
  {
  }

  lemma CountedIs(off: nat, tot: nat, avail: nat, n: nat)
    requires tot <= avail < n && Boundary(off, tot, n) && avail < tot + ChunkLength(off + tot, n - tot)
    ensures Counted(off, avail, n) == tot
  {
    var y := (off + tot) % BSIZE;
    assert (off + avail) % BSIZE == y + (avail - tot);
  }

  lemma CountStops(off: nat, tot: nat, w: nat, n: nat)
    requires tot <= w < n && AtBoundary(off, tot, n) && w < tot + ChunkLength(off + tot, n - tot)
    ensures CountIs(off, w, n, tot)
  {
    assert Boundary(off, tot, n);
    CountedIs(off, tot, w, n);
  }

  lemma CountedAll(off: nat, n: nat)
    ensures CountIs(off, n, n, n)
  {
  }

  /** The bytes of a file that one step copies: up to the end of a block. */
  function ChunkLength(at: nat, left: nat): (m: nat)
    requires left > 0
    ensures 0 < m <= left && at % BSIZE + m <= BSIZE
  {
    if left < BSIZE - at % BSIZE then left else BSIZE - at % BSIZE
  }

  class FileSystem {
    const meta: nat
    const used: array<bool>
    var data: map<nat, seq<int>>
    var ptrs: map<nat, seq<nat>>
    const inodes: array<Inode>
    ghost var owner: map<nat, Slot>
    ghost var logged: map<nat, seq<int>>  // the contents as of the last log_write of each block

    /** A file system with empty files on a disk with any contents. */
    constructor (meta: nat, size: nat, files: nat, data: map<nat, seq<int>>, ptrs: map<nat, seq<nat>>)
      requires 0 < meta <= size
      requires forall b: nat :: b < size ==> b in data && |data[b]| == BSIZE
      requires forall b: nat :: b < size ==> b in ptrs && |ptrs[b]| == NINDIRECT
      ensures fresh(used) && fresh(inodes) && Good(Now()) && Dense(Now()) && logged == this.data
      ensures used.Length == size && inodes.Length == files
    {
      this.meta := meta;
      used := new bool[size](b => b < meta);
      this.data, this.ptrs := data, ptrs;
      inodes := new Inode[files](_ => Inode(NoAddrs(), 0));
      owner, logged := map[], data;
      new;
      assert forall b: nat :: BitOk(Now(), b);
      assert forall a :: SlotOk(Now(), a);
      assert forall ino: nat, bn: nat :: DenseAt(Now(), ino, bn);
    }

    ghost function Now(): Disk
      reads this, used, inodes
    {
      Disk(meta, used[..], data, ptrs, inodes[..], owner)
    }

    /** The disk as the log knows it. */
    ghost function Logged(): Disk
      reads this, used, inodes
    {
      Now().(data := logged)
    }

    /** balloc: the first clear bit, set, with the block zeroed; 0 when all are set. */
    method Balloc() returns (b: nat)
      requires 0 < meta <= used.Length && forall i :: 0 <= i < meta ==> used[i]
      modifies this`data, this`logged, this`ptrs, used
      ensures b == 0 ==> Now() == old(Now()) && Full(Now())
      ensures old(logged == data) ==> logged == data
      ensures b != 0 ==>
        && b < used.Length && !old(used[b]) && (forall i :: 0 <= i < b ==> old(used[i]))
        && used[..] == old(used[..])[b := true]
        && data == old(data)[b := ZeroBytes()] && ptrs == old(ptrs)[b := ZeroPtrs()]
    {
      var base := 0;
      while base < used.Length
        invariant 0 <= base && forall i :: 0 <= i < base && i < used.Length ==> used[i]
        invariant used[..] == old(used[..]) && data == old(data) && logged == old(logged) && ptrs == old(ptrs)
      {
        var bi := 0;
        while bi < BPB && base + bi < used.Length
          invariant 0 <= bi <= BPB && forall i :: 0 <= i < base + bi && i < used.Length ==> used[i]
          invariant used[..] == old(used[..]) && data == old(data) && logged == old(logged) && ptrs == old(ptrs)
        {
          b := base + bi;
          if !used[b] {
            used[b] := true;
            data, logged, ptrs := data[b := ZeroBytes()], logged[b := ZeroBytes()], ptrs[b := ZeroPtrs()];
            return;
          }
          bi := bi + 1;
        }
        base := base + BPB;
      }
      b := 0;
    }

    /** bfree, which panics on a clear bit. */
    method Bfree(b: nat)
      requires b < used.Length && used[b]
      modifies used
      ensures used[..] == old(used[..])[b := false]
    {
      used[b] := false;
    }

    /** Allocate for an empty slot: the effect of balloc and the store of its result. */
    method Grow(a: Slot) returns (b: nat)
      requires Good(Now()) && Open(Now(), a)
      modifies this, used, inodes
      ensures Good(Now()) && Grown(old(Now()), Now()) && Addr(Now(), a) == b
      ensures b == 0 ==> Full(Now()) && Now() == old(Now())
      ensures old(Full(Now())) ==> b == 0
      ensures old(logged == data) ==> logged == data
    {
      ghost var d := Now();
      forall i | 0 <= i < meta
        ensures used[i]
      {
        assert BitOk(d, i);
      }
      b := Balloc();
      if b != 0 {
        PutKeeps(d, a, b);
        PutGrows(d, a, b);
        PutAddr(d, a, b, a);
        if a.Direct? {
          inodes[a.ino] := inodes[a.ino].(addrs := inodes[a.ino].addrs[a.k := b]);
        } else {
          assert SlotOk(d, Direct(a.ino, NDIRECT));
          var t := inodes[a.ino].addrs[NDIRECT];
          var entries: seq<nat> := ptrs[t][a.j := b];
          ptrs := ptrs[t := entries];
        }
        owner := owner[b := a];
        assert Now() == Put(d, a, b);
      }
    }

    /** bmap, which panics on a block number past the end of the map. */
    method Bmap(ino: nat, bn: nat) returns (addr: nat)
      requires Good(Now()) && ino < inodes.Length && bn < MAXFILE
      modifies this, used, inodes
      ensures Good(Now()) && Grown(old(Now()), Now()) && addr == BlockOf(Now(), ino, bn)
      ensures addr == 0 ==> Full(Now())
      ensures old(BlockOf(Now(), ino, bn)) != 0 || old(Full(Now())) ==> Now() == old(Now())
      ensures old(logged == data) ==> logged == data
      ensures bn < NDIRECT ==> |inodes[ino].addrs| == NDIRECT + 1 && addr == inodes[ino].addrs[bn]
      ensures bn >= NDIRECT && addr != 0 ==>
        && |inodes[ino].addrs| == NDIRECT + 1 && inodes[ino].addrs[NDIRECT] in ptrs
        && |ptrs[inodes[ino].addrs[NDIRECT]]| == NINDIRECT && addr == ptrs[inodes[ino].addrs[NDIRECT]][bn - NDIRECT]
    {
      ghost var d := Now();
      if bn < NDIRECT {
        addr := inodes[ino].addrs[bn];
        if addr == 0 {
          addr := Grow(Direct(ino, bn));
        }
        return;
      }
      var j := bn - NDIRECT;
      var t := inodes[ino].addrs[NDIRECT];
      if t == 0 {
        t := Grow(Direct(ino, NDIRECT));
        if t == 0 { return 0; }
      }
      ghost var e := Now();
      assert SlotOk(e, Direct(ino, NDIRECT));
      addr := ptrs[t][j];
      if addr == 0 {
        addr := Grow(Indirect(ino, j));
        GrownTrans(d, e, Now());
      }
      assert SlotOk(Now(), Direct(ino, NDIRECT));
    }

    /** itrunc. */
    method Itrunc(ino: nat)
      requires Good(Now()) && ino < inodes.Length
      modifies this`owner, used, inodes
      ensures Good(Now()) && Now() == Truncated(old(Now()), ino)
    {
      ghost var d := Now();
      FreeDirect(ino);
      var t := inodes[ino].addrs[NDIRECT];
      assert t == Addr(d, Direct(ino, NDIRECT));
      if t != 0 {
        FreeIndirect(ino, t, d);
        ClearNext(d, ino, Direct(ino, NDIRECT), used[..]);
        Bfree(t);
        inodes[ino] := inodes[ino].(addrs := inodes[ino].addrs[NDIRECT := 0]);
      } else {
        NothingIndirect(d, ino, used[..]);
      }
      ClearedAll(d, ino, used[..]);
      inodes[ino] := inodes[ino].(size := 0);
      assert inodes[ino].addrs == NoAddrs();
      owner := OwnersWithout(d, ino);
      assert Now() == Truncated(d, ino);
      TruncKeeps(d, ino);
    }

    method FreeDirect(ino: nat)
      requires Good(Now()) && ino < inodes.Length
      modifies used, inodes
      ensures Cleared(old(Now()), ino, NDIRECT, used[..])
      ensures |inodes[ino].addrs| == NDIRECT + 1 && inodes[ino].addrs[NDIRECT] == old(inodes[ino].addrs[NDIRECT])
      ensures forall k :: 0 <= k < NDIRECT ==> inodes[ino].addrs[k] == 0
      ensures forall i :: 0 <= i < inodes.Length && i != ino ==> inodes[i] == old(inodes[i])
    {
      ghost var d := Now();
      for i := 0 to NDIRECT
        invariant Cleared(d, ino, i, used[..])
        invariant |inodes[ino].addrs| == NDIRECT + 1
        invariant forall k :: 0 <= k <= NDIRECT ==> inodes[ino].addrs[k] == if k < i then 0 else d.inodes[ino].addrs[k]
        invariant forall j :: 0 <= j < inodes.Length && j != ino ==> inodes[j] == d.inodes[j]
      {
        ClearNext(d, ino, Direct(ino, i), used[..]);
        if inodes[ino].addrs[i] != 0 {
          Bfree(inodes[ino].addrs[i]);
          inodes[ino] := inodes[ino].(addrs := inodes[ino].addrs[i := 0]);
        }
      }
    }

    method FreeIndirect(ino: nat, t: nat, ghost d: Disk)
      requires Good(d) && ino < |d.inodes| && t == Addr(d, Direct(ino, NDIRECT)) != 0 && ptrs == d.ptrs
      requires Cleared(d, ino, NDIRECT, used[..])
      modifies used
      ensures Cleared(d, ino, MAXFILE, used[..])
    {
      assert SlotOk(d, Direct(ino, NDIRECT));
      for j := 0 to NINDIRECT
        invariant Cleared(d, ino, NDIRECT + j, used[..])
      {
        ClearNext(d, ino, Indirect(ino, j), used[..]);
        if ptrs[t][j] != 0 {
          Bfree(ptrs[t][j]);
        }
      }
    }

    /** One chunk of writei: m bytes of src from w on, of which the first got bytes arrive; log_write if all do. */
    method PutChunk(
        ino: nat, off: nat, src: seq<int>, w: nat, got: nat, addr: nat, log: bool, ghost d: Disk)
      requires Good(Now()) && ino < inodes.Length
      requires Landed(d, Now(), ino, off, src, w) && w + got <= |src|
      requires addr == BlockOf(Now(), ino, (off + w) / BSIZE) != 0 && (off + w) % BSIZE + got <= BSIZE
      requires Dense(Now())
      modifies this`data, this`logged
      ensures Good(Now()) && Dense(Now()) && Landed(d, Now(), ino, off, src, w + got)
      ensures if log then old(logged == data) ==> logged == data else logged == old(logged)
      ensures forall top: nat :: Covered(old(Now()), ino, top) ==> Covered(Now(), ino, top)
      ensures SameMap(old(Now()), Now())
    {
      ghost var f := Now();
      assert SlotOk(f, SlotFor(ino, (off + w) / BSIZE));
      GrownSelf(f);
      LandNext(d, f, f, ino, off, src, w, got);
      StoreKeeps(f, addr, (off + w) % BSIZE, src[w..w + got]);
      data := data[addr := Spliced(data[addr], (off + w) % BSIZE, src[w..w + got])];
      if log {
        logged := logged[addr := data[addr]];
      }
      assert Now() == Store(f, addr, (off + w) % BSIZE, src[w..w + got]);
      forall top: nat
        ensures Covered(f, ino, top) ==> Covered(Now(), ino, top)
      {
        DenseStore(f, addr, (off + w) % BSIZE, src[w..w + got], ino, top);
      }
      DenseStore(f, addr, (off + w) % BSIZE, src[w..w + got], ino, 0);
    }

    /**
     writei. Only the first avail bytes of the source can be read; copying a chunk
     that goes past them fails after the readable part of it has arrived in the
     block's buffer, which is then released without log_write. wrote is what readers
     of the buffers see; the log has the counted bytes only.
     */
    method Writei(ino: nat, src: seq<int>, avail: nat, off: nat) returns (r: int, ghost wrote: nat)
      requires Good(Now()) && Dense(Now()) && ino < inodes.Length && avail <= |src| < UINT && off < UINT
      modifies this, used, inodes
      ensures Good(Now()) && Dense(Now())
      ensures r == -1 <==> off > old(inodes[ino].size) || off + |src| >= UINT || off + |src| > MAXFILE * BSIZE
      ensures r == -1 ==> Now() == old(Now())
      ensures r != -1 ==>
        && 0 <= r <= wrote <= |src| && Landed(old(Now()), Now(), ino, off, src, wrote)
        && inodes[ino].size == (if off + r > old(inodes[ino].size) then off + r else old(inodes[ino].size))
        && (forall i :: 0 <= i < inodes.Length && i != ino ==> inodes[i].size == old(inodes[i].size))
        && (r < |src| ==> avail < |src| || Full(Now()))
        && (avail == |src| ==> wrote == r)
        && wrote <= avail && r == Counted(off, wrote, |src|) && Covered(Now(), ino, off + wrote)
        && (wrote < avail ==> Full(Now()) && Stops(old(Now()), Now(), ino, off, wrote))
        && (old(Full(Now())) ==> SameMap(old(Now()), Now()))
        && (!Full(Now()) || Present(old(Now()), ino, off, |src|) ==> wrote == avail)
        && (old(logged == data) ==> Landed(old(Now()), Logged(), ino, off, src, r))
      ensures r == |src| ==> Contents(Now(), ino) == Splice(old(Contents(Now(), ino)), off, src)
    {
      wrote := 0;
      if off > inodes[ino].size || (off + |src|) % UINT < off { return -1, 0; }
      if off + |src| > MAXFILE * BSIZE { return -1, 0; }
      var tot: nat;
      tot, wrote := WriteLoop(ino, src, avail, off);
      ghost var e := Now();
      SetSize(ino, off, src, tot, wrote, old(Now()), old(logged == data));
      r := tot;
      CoverSame(e, Now(), ino, off + wrote, off + wrote);
      assert SameAddr(e, Now(), SlotFor(ino, (off + wrote) / BSIZE));
      if wrote < avail && Present(old(Now()), ino, off, |src|) { PresentAt(old(Now()), ino, off, |src|, wrote); }
      if old(Full(Now())) { SameTrans(old(Now()), e, Now()); }
      if tot == |src| { SpliceContents(old(Now()), Now(), ino, off, src); }
    }

    /** The end of writei: the new size. */
    method SetSize(ino: nat, off: nat, src: seq<int>, tot: nat, ghost wrote: nat, ghost d: Disk, ghost clean: bool)
      requires Good(Now()) && Dense(Now()) && ino < inodes.Length && Covered(Now(), ino, off + tot)
      requires off + |src| <= MAXFILE * BSIZE && tot <= |src| && Landed(d, Now(), ino, off, src, wrote)
      requires clean ==> Landed(d, Logged(), ino, off, src, tot)
      modifies inodes
      ensures Good(Now()) && Dense(Now()) && Landed(d, Now(), ino, off, src, wrote)
      ensures clean ==> Landed(d, Logged(), ino, off, src, tot)
      ensures used[..] == old(used[..]) && SameMap(old(Now()), Now())
      ensures inodes[ino].size == if off + tot > old(inodes[ino].size) then off + tot else old(inodes[ino].size)
      ensures forall i :: 0 <= i < inodes.Length && i != ino ==> inodes[i].size == old(inodes[i].size)
    {
      ghost var e := Now();
      if off + tot > inodes[ino].size {
        SizeKeeps(e, ino, off + tot);
        inodes[ino] := inodes[ino].(size := off + tot);
        assert Now() == Sized(e, ino, off + tot);
        LandSized(d, e, ino, off, src, wrote, off + tot);
        if clean {
          LandSized(d, e.(data := logged), ino, off, src, tot, off + tot);
          assert Logged() == Sized(e.(data := logged), ino, off + tot);
        }
      }
    }

    method WriteLoop(ino: nat, src: seq<int>, avail: nat, off: nat) returns (tot: nat, ghost wrote: nat)
      requires Good(Now()) && Dense(Now()) && ino < inodes.Length && avail <= |src|
      requires off <= inodes[ino].size && off + |src| <= MAXFILE * BSIZE
      modifies this, used, inodes
      ensures Good(Now()) && Dense(Now()) && Covered(Now(), ino, off + tot)
      ensures tot <= wrote <= |src| && Landed(old(Now()), Now(), ino, off, src, wrote)
      ensures old(logged == data) ==> Landed(old(Now()), Logged(), ino, off, src, tot)
      ensures forall i :: 0 <= i < inodes.Length ==> inodes[i].size == old(inodes[i].size)
      ensures tot < |src| ==> avail < |src| || Full(Now())
      ensures avail == |src| ==> wrote == tot
      ensures wrote <= avail && CountIs(off, wrote, |src|, tot) && Covered(Now(), ino, off + wrote)
      ensures wrote < avail ==> Full(Now()) && Stops(old(Now()), Now(), ino, off, wrote)
      ensures old(Full(Now())) ==> SameMap(old(Now()), Now())
    {
      ghost var d := Now();
      tot := 0;
      WriteStart(d, ino, off, src);
      SinceStart(d);
      BoundaryStart(off, |src|);
      while tot < |src|
        invariant tot <= avail && Writing(d, ino, off, src, tot, tot) && (old(logged == data) ==> logged == data)
        invariant AtBoundary(off, tot, |src|) && Since(d, Now())
      {
        var stop, m, got := WriteChunk(ino, src, avail, off, tot, d);
        if stop { return tot, tot + got; }
        tot := tot + m;
      }
      wrote := tot;
      CountedAll(off, |src|);
    }

    /** The state of writei's loop: tot bytes counted, w bytes landed. */
    ghost predicate Writing(d: Disk, ino: nat, off: nat, src: seq<int>, tot: nat, w: nat)
      reads this, used, inodes
    {
      && Good(Now()) && Dense(Now()) && ino < inodes.Length && Covered(Now(), ino, off + tot)
      && Landed(d, Now(), ino, off, src, w)
      && |d.inodes| == inodes.Length && (forall i :: 0 <= i < inodes.Length ==> inodes[i].size == d.inodes[i].size)
    }

    method WriteChunk(ino: nat, src: seq<int>, avail: nat, off: nat, tot: nat, ghost d: Disk)
      returns (stop: bool, m: nat, got: nat)
      requires tot <= avail <= |src| && tot < |src| && off + |src| <= MAXFILE * BSIZE
      requires Writing(d, ino, off, src, tot, tot) && Since(d, Now()) && AtBoundary(off, tot, |src|)
      modifies this, used, inodes
      ensures Since(d, Now())
      ensures !stop ==> 0 < m && tot + m <= avail && AtBoundary(off, tot + m, |src|)
      ensures !stop ==> Writing(d, ino, off, src, tot + m, tot + m) && (old(logged == data) ==> logged == data)
      ensures stop ==> tot + got <= |src| && Writing(d, ino, off, src, tot, tot + got)
      ensures stop && old(logged == data) ==> Landed(d, Logged(), ino, off, src, tot)
      ensures stop ==> tot + got <= avail && CountIs(off, tot + got, |src|, tot)
      ensures stop ==> Covered(Now(), ino, off + tot + got)
      ensures stop && tot + got < avail ==> Full(Now()) && Stops(d, Now(), ino, off, tot)
      ensures stop && tot + got < avail ==> got == 0
      ensures stop && avail == |src| ==> got == 0
    {
      var addr := GetBlock(ino, src, off, tot, d);
      m := ChunkLength(off + tot, |src| - tot);
      if addr == 0 {
        CountStops(off, tot, tot, |src|);
        return true, 0, 0;
      }
      stop := tot + m > avail;
      got := if !stop then m else avail - tot;
      if stop {
        CountStops(off, tot, avail, |src|);
      } else {
        BoundaryNext(off, tot, |src|);
      }
      PlaceChunk(ino, off, src, tot, m, got, addr, d);
    }

    /** The copy of a chunk of m bytes of which got arrive, with log_write if all do. */
    method PlaceChunk(ino: nat, off: nat, src: seq<int>, tot: nat, m: nat, got: nat, addr: nat, ghost d: Disk)
      requires Writing(d, ino, off, src, tot, tot) && Since(d, Now()) && got <= m && tot + got <= |src|
      requires addr == BlockOf(Now(), ino, (off + tot) / BSIZE) != 0 && (off + tot) % BSIZE + m <= BSIZE
      requires Covered(Now(), ino, off + tot + m)
      modifies this`data, this`logged
      ensures Writing(d, ino, off, src, if got == m then tot + m else tot, tot + got) && Since(d, Now())
      ensures Covered(Now(), ino, off + tot + got)
      ensures got == m ==> (old(logged == data) ==> logged == data)
      ensures got < m && old(logged == data) ==> Landed(d, Logged(), ino, off, src, tot)
    {
      ghost var f := Now();
      PutChunk(ino, off, src, tot, got, addr, got == m, d);
      SinceSame(d, f, Now());
      CoverSame(f, Now(), ino, off + tot + m, off + tot + got);
      assert got < m && old(logged == data) ==> Logged() == f;
    }

    /** bmap in writei: the block of the next chunk, unless it is missing and the disk is full. */
    method GetBlock(ino: nat, src: seq<int>, off: nat, tot: nat, ghost d: Disk) returns (addr: nat)
      requires tot < |src| && off + |src| <= MAXFILE * BSIZE
      requires Writing(d, ino, off, src, tot, tot) && Since(d, Now())
      modifies this, used, inodes
      ensures Writing(d, ino, off, src, tot, tot) && Since(d, Now()) && (old(logged == data) ==> logged == data)
      ensures addr == BlockOf(Now(), ino, (off + tot) / BSIZE)
      ensures addr == 0 ==> Full(Now()) && Stops(d, Now(), ino, off, tot)
      ensures addr != 0 ==> Covered(Now(), ino, off + tot + ChunkLength(off + tot, |src| - tot))
    {
      ghost var e := Now();
      var at := off + tot;
      addr := Bmap(ino, at / BSIZE);
      DenseNext(e, Now());
      KeepCover(e, Now(), ino, at);
      SinceGrown(d, e, Now());
      LandGrown(d, e, Now(), ino, off, src, tot);
      if addr == 0 {
        MissingThen(d, Now(), ino, at / BSIZE);
      } else {
        CoverNext(e, Now(), ino, at, ChunkLength(at, |src| - tot));
      }
    }

    /** bmap, bread and the copy of one chunk of readi. */
    method GetChunk(ino: nat, at: nat, got: nat, ghost d: Disk) returns (addr: nat, chunk: seq<int>)
      requires Now() == d && Good(d) && Dense(d) && ino < |d.inodes| && at < d.inodes[ino].size
      requires at + got <= d.inodes[ino].size && at % BSIZE + got <= BSIZE
      modifies this, used, inodes
      ensures Now() == d && addr != 0 && chunk == Contents(d, ino)[at..at + got]
    {
      assert DenseAt(Now(), ino, at / BSIZE);
      addr := Bmap(ino, at / BSIZE);
      assert SlotOk(Now(), SlotFor(ino, at / BSIZE));
      ReadChunk(Now(), ino, at, got);
      chunk := data[addr][at % BSIZE..at % BSIZE + got];
    }

    /**
     readi. Only the first room bytes of the destination can be written; a chunk that
     goes past them fails after the writable part of it has been copied.
     */
    method Readi(ino: nat, room: nat, off: nat, count: nat) returns (r: int, out: seq<int>)
      requires Good(Now()) && Dense(Now()) && ino < inodes.Length && off < UINT && count < UINT
      modifies this, used, inodes
      ensures Now() == old(Now())
      ensures off > inodes[ino].size || off + count >= UINT ==> r == 0 && out == []
      ensures off <= inodes[ino].size && off + count < UINT ==>
        var n := if off + count > inodes[ino].size then inodes[ino].size - off else count;
        && (if room >= n then r == n && |out| == n else r == -1 && |out| == room)
        && out == Contents(Now(), ino)[off..off + |out|]
    {
      if off > inodes[ino].size || (off + count) % UINT < off { return 0, []; }
      var n := count;
      if off + n > inodes[ino].size { n := inodes[ino].size - off; }
      r, out := ReadLoop(ino, room, off, n);
    }

    method ReadLoop(ino: nat, room: nat, off: nat, n: nat) returns (r: int, out: seq<int>)
      requires Good(Now()) && Dense(Now()) && ino < inodes.Length && off + n <= inodes[ino].size
      modifies this, used, inodes
      ensures Now() == old(Now())
      ensures if room >= n then r == n && |out| == n else r == -1 && |out| == room
      ensures out == Contents(Now(), ino)[off..off + |out|]
    {
      out := [];
      ghost var d, file := Now(), Contents(Now(), ino);
      var tot := 0;
      while tot < n
        invariant tot <= n && tot <= room && Now() == d && |out| == tot && out == file[off..off + tot]
      {
        var at := off + tot;
        var m := ChunkLength(at, n - tot);
        var got := if tot + m <= room then m else room - tot;
        var addr, chunk := GetChunk(ino, at, got, d);
        if addr == 0 { break; }
        Joined(file, off, at, at + got);
        out := out + chunk;
        if tot + m > room { return -1, out; }
        tot := tot + m;
      }
      r := tot;
    }
  }
}
