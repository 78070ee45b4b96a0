/**
 The pipe of kernel/pipe.c. A call holds the pipe's lock except while it sleeps, so
 every interleaving of readers and writers is a sequence of the atomic sections
 below: from taking the lock, at the start or on waking, to returning or sleeping.
 */
module Pipe {
  const PIPESIZE: nat := 512
  const UINT: nat := 0x1_0000_0000

  // Asleep(i): the call waits, having moved i bytes
  datatype Outcome = Returned(r: int) | Asleep(i: nat)

  class Ring {
    const data: array<int>
    var nread: nat
    var nwrite: nat
    var readOpen: bool
    var writeOpen: bool
    // All the bytes ever accepted from writers and delivered to readers, in order
    ghost var accepted: seq<int>
    ghost var delivered: seq<int>

    /**
     What was delivered is a prefix of what was accepted; the rest, at most PIPESIZE
     bytes, is in the ring; the counters are the totals modulo 2^32.
     */
    ghost predicate Valid()
      reads this, data
    {
      && data.Length == PIPESIZE && delivered <= accepted && |accepted| - |delivered| <= PIPESIZE
      && nread == |delivered| % UINT && nwrite == |accepted| % UINT
      && Buffered(data[..], |delivered|, accepted)
    }

    constructor ()
      ensures Valid() && fresh(data) && accepted == [] && delivered == [] && readOpen && writeOpen
    {
      data := new int[PIPESIZE];
      nread, nwrite, readOpen, writeOpen, accepted, delivered := 0, 0, true, true, [], [];
    }

    /**
     A section of pipewrite that has moved i of n bytes so far. Only the first avail
     bytes of the source can be read, and killed is seen from byte killedFrom on.
     */
    method Write(src: seq<int>, i: nat, avail: nat, killedFrom: nat) returns (o: Outcome, ghost j: nat)
      requires Valid() && i <= |src|
      modifies this`nwrite, this`accepted, data
      ensures Valid() && i <= j <= |src| && accepted == old(accepted) + src[i..j]
      ensures o == Returned(-1) <==> j < |src| && (!readOpen || j >= killedFrom)
      ensures o.Asleep? ==> o.i == j && j < |src| && |accepted| - |delivered| == PIPESIZE
      ensures o.Returned? && o.r != -1 ==> o.r == j && (j == |src| || j >= avail)
      ensures j > i ==> readOpen && j <= killedFrom && j <= avail
    {
      var k := i;
      while k < |src|
        invariant i <= k <= |src| && Valid() && accepted == old(accepted) + src[i..k]
        invariant k > i ==> readOpen && k <= killedFrom && k <= avail
      {
        if !readOpen || k >= killedFrom { return Returned(-1), k; }
        FullIff(|delivered|, |accepted|);
        if nwrite == (nread + PIPESIZE) % UINT {
          return Asleep(k), k;
        }
        if k >= avail { break; }
        Put(src[k]);
        assert src[i..k + 1] == src[i..k] + [src[k]];
        k := k + 1;
      }
      o, j := Returned(k), k;
    }

    /** pi->data[pi->nwrite++ % PIPESIZE] = ch. */
    method Put(ch: int)
      requires Valid() && |accepted| - |delivered| < PIPESIZE
      modifies this`nwrite, this`accepted, data
      ensures Valid() && accepted == old(accepted) + [ch]
    {
      WrapPosition(|accepted|);
      PutBuffered(data[..], |delivered|, accepted, ch);
      data[nwrite % PIPESIZE] := ch;
      nwrite := (nwrite + 1) % UINT;
      accepted := accepted + [ch];
      assert delivered <= accepted;
    }

    /**
     A section of piperead. Only the first room bytes of the destination can be
     written; a byte whose copy fails stays in the pipe.
     */
    method Read(n: int, room: nat, killed: bool) returns (o: Outcome, out: seq<int>)
      requires Valid()
      modifies this`nread, this`delivered
      ensures Valid() && delivered == old(delivered) + out
      ensures o.Asleep? <==> old(delivered) == accepted && writeOpen && !killed
      ensures old(delivered) == accepted && writeOpen && killed ==> o == Returned(-1)
      ensures old(delivered) == accepted ==> out == []
      ensures !(old(delivered) == accepted && writeOpen) ==>
        var left := |accepted| - |old(delivered)|;
        var want := if n < 0 then 0 else if n < left then n else left;
        && |out| == (if want <= room then want else room)
        && o == Returned(if want > 0 && room == 0 then -1 else |out|)
    {
      out := [];
      EmptyIff(|delivered|, |accepted|);
      if nread == nwrite && writeOpen {
        return if killed then Returned(-1) else Asleep(0), [];
      }
      var i := 0;
      while i < n
        invariant |out| == i && (i == 0 || i <= n) && Valid() && delivered == old(delivered) + out && i <= room
      {
        EmptyIff(|delivered|, |accepted|);
        if nread == nwrite { break; }
        if i >= room {
          return Returned(if i == 0 then -1 else i), out;
        }
        var ch := Get();
        out := out + [ch];
        i := i + 1;
      }
      o := Returned(i);
    }

    /** The oldest byte, taken out. */
    method Get() returns (ch: int)
      requires Valid() && |delivered| < |accepted|
      modifies this`nread, this`delivered
      ensures Valid() && delivered == old(delivered) + [ch]
    {
      WrapPosition(|delivered|);
      ch := data[nread % PIPESIZE];
      assert InRing(data[..], |delivered|, accepted, |delivered|);
      nread := (nread + 1) % UINT;
      GetBuffered(data[..], |delivered|, accepted);
      delivered := delivered + [ch];
    }

    /** pipeclose of one end; true when both ends are closed and the pipe is freed. */
    method Close(writable: bool) returns (freed: bool)
      requires Valid()
      modifies this`readOpen, this`writeOpen
      ensures Valid()
      ensures if writable then !writeOpen && readOpen == old(readOpen) else !readOpen && writeOpen == old(writeOpen)
      ensures freed <==> !readOpen && !writeOpen
    {
      if writable { writeOpen := false; } else { readOpen := false; }
      freed := !readOpen && !writeOpen;
    }
  }

  ghost predicate InRing(ring: seq<int>, lo: nat, s: seq<int>, p: nat)
    requires |ring| == PIPESIZE
  {
    lo <= p < |s| ==> ring[p % PIPESIZE] == s[p]
  }

  /** The bytes of s from lo on are in the ring. */
  ghost predicate Buffered(ring: seq<int>, lo: nat, s: seq<int>) {
    |ring| == PIPESIZE && forall p: nat {:trigger InRing(ring, lo, s, p)} :: InRing(ring, lo, s, p)
  }

  lemma PutBuffered(ring: seq<int>, lo: nat, s: seq<int>, ch: int)
    requires Buffered(ring, lo, s) && lo <= |s| < lo + PIPESIZE
    ensures Buffered(ring[|s| % PIPESIZE := ch], lo, s + [ch])
  {
    var ring', s' := ring[|s| % PIPESIZE := ch], s + [ch];
    forall p: nat
      ensures InRing(ring', lo, s', p)
    {
      assert InRing(ring, lo, s, p);
      if lo <= p < |s| { Distinct(p, |s|); }
    }
  }

  lemma GetBuffered(ring: seq<int>, lo: nat, s: seq<int>)
    requires Buffered(ring, lo, s)
    ensures Buffered(ring, lo + 1, s)
  {
    var next := lo + 1;
    forall p: nat
      ensures InRing(ring, next, s, p)
    {
      assert InRing(ring, lo, s, p);
    }
  }

  lemma Distinct(p: nat, q: nat)
    requires p < q < p + PIPESIZE
    ensures p % PIPESIZE != q % PIPESIZE
  {
  }

  /** PIPESIZE divides 2^32, so a wrapped counter still gives the position. */
  lemma WrapPosition(t: nat)
    ensures t % UINT % PIPESIZE == t % PIPESIZE
    ensures (t % UINT + 1) % UINT == (t + 1) % UINT
  {
  }

  lemma EmptyIff(r: nat, w: nat)
    requires r <= w <= r + PIPESIZE
    ensures r % UINT == w % UINT <==> r == w
  {
  }

  lemma FullIff(r: nat, w: nat)
    requires r <= w <= r + PIPESIZE
    ensures w % UINT == (r % UINT + PIPESIZE) % UINT <==> w == r + PIPESIZE
  {
  }
}
