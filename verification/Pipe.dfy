/** The ring buffer of kernel/pipe.c.

    pipewrite and piperead hold the pipe's lock except while they sleep, so each
    method here runs from one point where the lock is taken to the next point
    where it is given up: any interleaving of readers and writers is a sequence
    of such calls.  The ghost sequence `written` is every byte ever put into the
    ring, and `taken` counts the bytes that left it.
 */
module Pipe {
  import opened Words

  const PIPESIZE: nat := 512

  /** What made a writer stop. */
  datatype Stop = Finished | Full | Fault | Closed

  /** How a reader's turn ended: with bytes or the end of the input, asleep, or killed. */
  datatype Turn = Served | Waiting | Killed

  /** What the ends of the pipe do between two points where the lock is free. */
  datatype Request =
    | Write(src: seq<byte>, i: nat, readable: nat, killed: bool)
    | Read(n: nat, room: nat, killed: bool)
    | Close(writable: bool)

  /** 32-bit counters tell occupancies from 0 to PIPESIZE apart and find the right slots. */
  lemma Counters(r: nat, w: nat)
    requires r <= w <= r + PIPESIZE
    ensures r % U32 == w % U32 <==> r == w
    ensures w % U32 == (r % U32 + PIPESIZE) % U32 <==> w == r + PIPESIZE
    ensures w % U32 % PIPESIZE == w % PIPESIZE && r % U32 % PIPESIZE == r % PIPESIZE
    ensures (w % U32 + 1) % U32 == (w + 1) % U32 && (r % U32 + 1) % U32 == (r + 1) % U32
  {
    Slot(w);
    Slot(r);
    Ahead(r, w - r);
  }

  /** PIPESIZE divides 2^32. */
  lemma Slot(a: nat)
    ensures a % 0x1_0000_0000 % 512 == a % 512
    ensures (a % 0x1_0000_0000 + 1) % 0x1_0000_0000 == (a + 1) % 0x1_0000_0000
  {
  }

  lemma Ahead(a: nat, d: nat)
    requires d <= 512
    ensures a % 0x1_0000_0000 == (a + d) % 0x1_0000_0000 <==> d == 0
    ensures (a + d) % 0x1_0000_0000 == (a % 0x1_0000_0000 + 512) % 0x1_0000_0000 <==> d == 512
  {
  }

  lemma SlotsApart(a: nat, b: nat)
    requires a < b < a + PIPESIZE
    ensures a % PIPESIZE != b % PIPESIZE
  {
  }

  /** Slot k % PIPESIZE of the ring holds byte k. */
  ghost predicate SlotHolds(data: seq<byte>, written: seq<byte>, k: nat)
    requires |data| == PIPESIZE && k < |written|
  {
    data[k % PIPESIZE] == written[k]
  }

  ghost predicate RingHolds(data: seq<byte>, written: seq<byte>, taken: nat)
  {
    && |data| == PIPESIZE && taken <= |written| <= taken + PIPESIZE
    && forall k: nat {:trigger SlotHolds(data, written, k)} :: taken <= k < |written| ==> SlotHolds(data, written, k)
  }

  lemma PutOk(data: seq<byte>, written: seq<byte>, taken: nat, ch: byte)
    requires RingHolds(data, written, taken) && |written| < taken + PIPESIZE
    ensures RingHolds(data[|written| % PIPESIZE := ch], written + [ch], taken)
  {
    var data', written' := data[|written| % PIPESIZE := ch], written + [ch];
    forall k: nat | taken <= k < |written'| ensures SlotHolds(data', written', k) {
      if k < |written| {
        assert SlotHolds(data, written, k);
        SlotsApart(k, |written|);
      }
    }
  }

  lemma GetOk(data: seq<byte>, written: seq<byte>, taken: nat)
    requires RingHolds(data, written, taken) && taken < |written|
    ensures data[taken % PIPESIZE] == written[taken] && RingHolds(data, written, taken + 1)
  {
    assert SlotHolds(data, written, taken);
    forall k: nat | taken + 1 <= k < |written| ensures SlotHolds(data, written, k) { assert taken <= k; }
  }

  class Ring {
    const data: array<byte>
    var nread: uint32
    var nwrite: uint32
    var readopen: bool
    var writeopen: bool
    ghost var written: seq<byte>
    ghost var taken: nat

    ghost predicate Valid()
      reads this, data
    {
      && data.Length == PIPESIZE && RingHolds(data[..], written, taken)
      && nwrite == |written| % U32 && nread == taken % U32
    }

    constructor ()
      ensures Valid() && fresh(data) && written == [] && taken == 0 && readopen && writeopen
    {
      data := new byte[PIPESIZE];
      nread, nwrite, readopen, writeopen, written, taken := 0, 0, true, true, [], 0;
    }

    /** One byte enters the ring. */
    method Put(ch: byte)
      requires Valid() && |written| < taken + PIPESIZE
      modifies this`nwrite, this`written, data
      ensures Valid() && written == old(written) + [ch]
    {
      Counters(taken, |written|);
      PutOk(data[..], written, taken, ch);
      data[nwrite % PIPESIZE] := ch;
      assert data[..] == old(data[..])[|written| % PIPESIZE := ch];
      nwrite := (nwrite + 1) % U32;
      written := written + [ch];
    }

    /** The oldest byte leaves the ring. */
    method Get() returns (ch: byte)
      requires Valid() && taken < |written|
      modifies this`nread, this`taken
      ensures Valid() && taken == old(taken) + 1 && ch == written[old(taken)]
    {
      Counters(taken, |written|);
      GetOk(data[..], written, taken);
      ch := data[nread % PIPESIZE];
      nread := (nread + 1) % U32;
      taken := taken + 1;
    }

    /** pipewrite from byte i of src on; only the first `readable` bytes of src can be read. */
    method Write(src: seq<byte>, i: nat, readable: nat, killed: bool) returns (j: nat, stop: Stop)
      requires Valid() && i <= readable <= |src|
      modifies this`nwrite, this`written, data
      ensures Valid() && i <= j <= readable && written == old(written) + src[i..j]
      ensures stop == Finished <==> j == |src|
      ensures stop == Closed <==> j < |src| && (!readopen || killed)
      ensures stop == Full ==> |written| == taken + PIPESIZE
      ensures stop == Fault ==> j == readable < |src| && |written| < taken + PIPESIZE
      ensures stop == Closed ==> j == i
    {
      j := i;
      assert old(written) + src[i..i] == old(written);
      while j < |src|
        invariant Valid() && i <= j <= readable && written == old(written) + src[i..j]
        invariant j > i ==> readopen && !killed
      {
        if !readopen || killed { return j, Closed; }
        Counters(taken, |written|);
        if nwrite == (nread + PIPESIZE) % U32 { return j, Full; }
        if j == readable { return j, Fault; }
        assert old(written) + src[i..j + 1] == old(written) + src[i..j] + [src[j]];
        Put(src[j]);
        j := j + 1;
      }
      stop := Finished;
    }

    /** piperead up to the point where it sleeps or returns: up to n bytes into a destination that
        takes `writable` bytes.  The byte after those has left the ring all the same. */
    method Read(n: nat, writable: nat, killed: bool) returns (dst: seq<byte>, turn: Turn)
      requires Valid()
      modifies this`nread, this`taken
      ensures Valid()
      ensures turn == Served <==> old(taken) < |written| || !writeopen
      ensures turn == Killed <==> old(taken) == |written| && writeopen && killed
      ensures turn != Served ==> dst == [] && taken == old(taken)
      ensures turn == Served ==>
                var avail := |written| - old(taken);
                var most := if n < avail then n else avail;
                && |dst| == (if writable < most then writable else most)
                && dst == written[old(taken)..old(taken) + |dst|]
                && taken == old(taken) + |dst| + (if writable < most then 1 else 0)
    {
      Counters(taken, |written|);
      dst, turn := [], Served;
      if nread == nwrite && writeopen { return [], if killed then Killed else Waiting; }
      var i := 0;
      while i < n
        invariant 0 <= i <= n && i <= writable && Valid() && taken == old(taken) + i <= |written|
        invariant dst == written[old(taken)..old(taken) + i]
      {
        Counters(taken, |written|);
        if nread == nwrite { return; }
        var ch := Get();
        if i == writable { return; }
        dst := dst + [ch];
        i := i + 1;
      }
    }

    /** pipeclose: one end is closed for good; the pipe is given back when both are. */
    method Close(writable: bool) returns (free: bool)
      requires Valid()
      modifies this`readopen, this`writeopen
      ensures Valid() && free == (!readopen && !writeopen)
      ensures if writable then !writeopen && readopen == old(readopen) else !readopen && writeopen == old(writeopen)
    {
      if writable { writeopen := false; } else { readopen := false; }
      free := !readopen && !writeopen;
    }

    /** Any interleaving of writers, readers and closers: the bytes received, in order, are the bytes sent
        that have left the ring, unless a reader's destination failed. */
    method Serve(requests: seq<Request>) returns (sent: seq<byte>, received: seq<byte>)
      requires Valid()
      requires forall r :: r in requests && r.Write? ==> r.i <= r.readable <= |r.src|
      modifies this, data
      ensures Valid() && written == old(written) + sent && old(taken) <= taken
      ensures Willing(requests) ==> received == written[old(taken)..taken]
    {
      hide RingHolds, Willing;
      sent, received := [], [];
      assert old(written) + [] == old(written);
      InRing(data[..], written, taken);
      for k := 0 to |requests|
        invariant Valid() && written == old(written) + sent && old(taken) <= taken <= |written|
        invariant Willing(requests) ==> received == written[old(taken)..taken]
      {
        assert requests[k] in requests;
        ghost var before, from := written, taken;
        match requests[k]
        case Write(src, i, readable, killed) =>
          var j, stop := Write(src, i, readable, killed);
          InRing(data[..], written, taken);
          sent := sent + src[i..j];
          assert written[old(taken)..taken] == before[old(taken)..taken];
        case Read(n, room, killed) =>
          var dst, turn := Read(n, room, killed);
          InRing(data[..], written, taken);
          WillingRead(requests, k);
          assert written[old(taken)..from] + written[from..from + |dst|] == written[old(taken)..from + |dst|];
          received := received + dst;
        case Close(writable) => var free := Close(writable);
      }
    }
  }

  /** Every read has room for what it asks for. */
  ghost predicate Willing(requests: seq<Request>)
  {
    forall r :: r in requests && r.Read? ==> r.n <= r.room
  }

  lemma WillingRead(requests: seq<Request>, k: nat)
    requires k < |requests| && requests[k].Read?
    ensures Willing(requests) ==> requests[k].n <= requests[k].room
  {
  }

  lemma InRing(data: seq<byte>, written: seq<byte>, taken: nat)
    requires RingHolds(data, written, taken)
    ensures taken <= |written|
  {
  }
}
