/** The descriptor protocol of kernel/virtio_disk.c (sections 2.6 and 5.2 of VIRTIO 1.1).

    Driver and device share the descriptor table, the avail ring and the used
    ring.  The device takes chains from the avail ring in order, performs them
    in any order, each once, and reports each in the used ring.  The 16-bit
    indices wrap; the ghost sequences and counters of View do not.

    The device does not know the driver's lock.  `Device` is any number of its
    steps, and the driver's methods call it between any two of their accesses to
    shared memory.  Descriptors that the driver has taken and not yet made
    available, or taken back and not yet freed, are `loose`.
 */
module VirtioDisk {
  import opened Counting
  import opened Wrappers

  const NUM: nat := 8
  const U16: nat := 0x1_0000
  const BSIZE: nat := 1024
  const F_NEXT: nat := 1   // VRING_DESC_F_NEXT
  const F_WRITE: nat := 2  // VRING_DESC_F_WRITE

  type Data = d: seq<int> | |d| == 1024 witness seq(1024, _ => 0)  // a block

  /** What a descriptor points to. */
  datatype Addr = Nil | ToOp(i: nat) | ToData(b: nat) | ToStatus(i: nat)

  datatype Desc = Desc(addr: Addr, len: nat, flags: nat, next: nat)

  /** A command header: its type, and the number of the first 512-byte sector. */
  datatype Op = Op(write: bool, sector: nat)

  datatype Info = Info(b: Option<nat>, status: nat)

  /** struct buf: `busy` says that the device owns the buffer. */
  datatype Buf = Buf(block: nat, data: Data, busy: bool)

  /** How far a request has come. */
  datatype Phase = Published | Taken | Moved | Performed | Used(pos: nat) | Done

  /** A request under way: the k-th submission, its second and third descriptors, its buffer. */
  datatype Chain = Chain(k: nat, d1: nat, d2: nat, b: nat, write: bool, phase: Phase)

  /** Descriptors that virtio_disk_rw formats for a request. */
  function Header(h: nat, d1: nat): (d: Desc) { Desc(ToOp(h), 16, F_NEXT, d1) }
  function DataDesc(b: nat, write: bool, d2: nat): (d: Desc)
  {
    Desc(ToData(b), BSIZE, F_NEXT + (if write then 0 else F_WRITE), d2)
  }
  function Status(h: nat): (d: Desc) { Desc(ToStatus(h), 1, F_WRITE, 0) }

  predicate HasNext(flags: nat) { flags % 2 == 1 }

  /** Positions in a ring of NUM entries, from wrapping and from true counters. */
  lemma Wrap(a: nat, b: nat)
    requires a <= b <= a + NUM
    ensures a % U16 == b % U16 <==> a == b
    ensures a % U16 % NUM == a % NUM && (a % U16 + 1) % U16 == (a + 1) % U16
  {
  }

  lemma SlotsApart(a: nat, b: nat)
    requires a < b < a + NUM
    ensures a % NUM != b % NUM
  {
  }

  predicate Member(h: nat, c: Chain, d: nat)
  {
    d == h || d == c.d1 || d == c.d2
  }

  /** What driver and device share, and the driver's bookkeeping: struct disk and the buffers. */
  datatype Shared = Shared(free: seq<bool>, desc: seq<Desc>, avail: seq<nat>, used: seq<nat>,
                           info: seq<Info>, ops: seq<Op>, bufs: map<nat, Buf>)

  /** The state that the protocol is about. */
  datatype View = View(mem: Shared, chains: map<nat, Chain>, owner: map<nat, nat>,
                       order: seq<nat>,      // head of each submission
                       reports: seq<nat>,    // head of each completion
                       taken: nat, seen: nat,
                       slot: Option<nat>,    // head in the next slot of the used ring, not yet reported
                       performed: seq<nat>)  // submissions in the order in which the device performed them

  ghost predicate Sizes(v: View)
  {
    && |v.mem.free| == |v.mem.desc| == |v.mem.avail| == |v.mem.used| == |v.mem.info| == |v.mem.ops| == NUM
    && v.taken <= |v.order| && v.seen <= |v.reports|
  }

  /** Every descriptor is free, loose, or in the one chain that owns it. */
  ghost predicate Owners(v: View, loose: set<nat>)
    requires |v.mem.free| == NUM
  {
    && (forall d: nat :: d < NUM ==> (!v.mem.free[d] <==> d in v.owner || d in loose))
    && (forall d :: d in v.owner ==>
          d < NUM && d !in loose && v.owner[d] in v.chains && Member(v.owner[d], v.chains[v.owner[d]], d))
    && (forall d :: d in loose ==> d < NUM)
  }

  /** The descriptors of chain h are its own and say what was asked for. */
  ghost predicate ChainOk(v: View, h: nat)
    requires Sizes(v) && h in v.chains
  {
    var c := v.chains[h];
    && h < NUM && c.d1 < NUM && c.d2 < NUM && h != c.d1 && h != c.d2 && c.d1 != c.d2
    && h in v.owner && v.owner[h] == h && c.d1 in v.owner && v.owner[c.d1] == h && c.d2 in v.owner && v.owner[c.d2] == h
    && v.mem.desc[h] == Header(h, c.d1) && v.mem.desc[c.d1] == DataDesc(c.b, c.write, c.d2)
    && v.mem.desc[c.d2] == Status(h)
    && c.b in v.mem.bufs && v.mem.ops[h] == Op(c.write, 2 * v.mem.bufs[c.b].block) && v.mem.info[h].b == Some(c.b)
  }

  /** The transfer of the request has been made. */
  predicate Past(phase: Phase)
  {
    phase.Moved? || phase.Performed? || phase.Used? || phase.Done?
  }

  /** The phase of chain h agrees with the counters. */
  ghost predicate PhaseOk(v: View, h: nat)
    requires Sizes(v) && h in v.chains
  {
    var c := v.chains[h];
    && h < NUM && c.k < |v.order| && v.order[c.k] == h
    && (c.phase.Published? <==> v.taken <= c.k)
    && (c.k in v.performed <==> Past(c.phase))
    && (c.b in v.mem.bufs ==> (v.mem.bufs[c.b].busy <==> !c.phase.Done?))
    && (c.phase.Used? ==> v.seen <= c.phase.pos < |v.reports| && v.reports[c.phase.pos] == h)
    && (c.phase.Performed? || c.phase.Used? ==> v.mem.info[h].status == 0)
  }

  /** Two chains have two buffers. */
  ghost predicate BufsApart(v: View, g: nat, h: nat)
    requires g in v.chains && h in v.chains
  {
    v.chains[g].b == v.chains[h].b ==> g == h
  }

  /** Submission k waits in the avail ring. */
  ghost predicate AvailOk(v: View, k: nat)
    requires Sizes(v) && v.taken <= k < |v.order|
  {
    v.order[k] in v.chains && v.chains[v.order[k]].k == k && v.mem.avail[k % NUM] == v.order[k]
  }

  /** Completion k waits in the used ring. */
  ghost predicate UsedOk(v: View, k: nat)
    requires Sizes(v) && v.seen <= k < |v.reports|
  {
    v.reports[k] in v.chains && v.chains[v.reports[k]].phase == Used(k) && v.mem.used[k % NUM] == v.reports[k]
  }

  /** The device performs a submission at most once. */
  ghost predicate Once(v: View)
  {
    && (forall i :: 0 <= i < |v.performed| ==> v.performed[i] < |v.order|)
    && (forall i, j :: 0 <= i < j < |v.performed| ==> v.performed[i] != v.performed[j])
  }

  /** The slot behind the used ring's last entry holds the head of a chain that was performed. */
  ghost predicate SlotOk(v: View)
    requires Sizes(v)
  {
    v.slot.Some? ==>
      v.slot.value in v.chains && v.chains[v.slot.value].phase == Performed &&
          v.mem.used[|v.reports| % NUM] == v.slot.value
  }

  ghost predicate Ok(v: View, loose: set<nat>)
    ensures Ok(v, loose) ==> Sizes(v)
  {
    && Sizes(v) && Owners(v, loose) && Once(v) && SlotOk(v)
    && (forall h {:trigger ChainOk(v, h)} :: h in v.chains ==> ChainOk(v, h))
    && (forall h {:trigger PhaseOk(v, h)} :: h in v.chains ==> PhaseOk(v, h))
    && (forall g, h {:trigger BufsApart(v, g, h)} :: g in v.chains && h in v.chains ==> BufsApart(v, g, h))
    && (forall k: nat {:trigger AvailOk(v, k)} :: v.taken <= k < |v.order| ==> AvailOk(v, k))
    && (forall k: nat {:trigger UsedOk(v, k)} :: v.seen <= k < |v.reports| ==> UsedOk(v, k))
  }

  // ---- What each operation does to the state ----------------------------

  /** Descriptor d becomes loose, or free again, and its contents may change. */
  lemma LooseOk(v: View, loose: set<nat>, d: nat, f: bool, x: Desc, loose': set<nat>)
    requires Ok(v, loose) && d < NUM && d !in v.owner && loose' == if f then loose - {d} else loose + {d}
    ensures Ok(v.(mem := v.mem.(free := v.mem.free[d := f], desc := v.mem.desc[d := x])), loose')
  {
    var v' := v.(mem := v.mem.(free := v.mem.free[d := f], desc := v.mem.desc[d := x]));
    LooseOwners(v, loose, d, f, loose', v');
    LooseChains(v, loose, d, v');
    RingsKept(v, v');
    hide Owners, ChainOk, AvailOk, UsedOk;
    forall h | h in v'.chains ensures PhaseOk(v', h) { assert PhaseOk(v, h); }
    forall g, h | g in v'.chains && h in v'.chains ensures BufsApart(v', g, h) { assert BufsApart(v, g, h); }
  }

  lemma LooseChains(v: View, loose: set<nat>, d: nat, v': View)
    requires Ok(v, loose) && d < NUM && d !in v.owner && |v'.mem.free| == |v'.mem.desc| == NUM
    requires v' == v.(mem := v.mem.(free := v'.mem.free, desc := v.mem.desc[d := v'.mem.desc[d]]))
    ensures forall h {:trigger ChainOk(v', h)} :: h in v'.chains ==> ChainOk(v', h)
  {
    hide Owners, PhaseOk, AvailOk, UsedOk;
    forall h | h in v'.chains ensures ChainOk(v', h) { assert ChainOk(v, h); }
  }

  lemma LooseOwners(v: View, loose: set<nat>, d: nat, f: bool, loose': set<nat>, v': View)
    requires |v.mem.free| == NUM && Owners(v, loose) && d < NUM && d !in v.owner
    requires loose' == if f then loose - {d} else loose + {d}
    requires v'.mem.free == v.mem.free[d := f] && v'.owner == v.owner && v'.chains == v.chains
    ensures Owners(v', loose')
  {
  }

  /** The rings depend on few fields. */
  lemma RingsKept(v: View, v': View)
    requires Sizes(v) && Sizes(v') && v'.order == v.order && v'.reports == v.reports && v'.taken == v.taken &&
               v'.seen == v.seen
    requires v'.mem.avail == v.mem.avail && v'.mem.used == v.mem.used && v'.chains == v.chains
    requires forall k: nat {:trigger AvailOk(v, k)} :: v.taken <= k < |v.order| ==> AvailOk(v, k)
    requires forall k: nat {:trigger UsedOk(v, k)} :: v.seen <= k < |v.reports| ==> UsedOk(v, k)
    ensures forall k: nat {:trigger AvailOk(v', k)} :: v'.taken <= k < |v'.order| ==> AvailOk(v', k)
    ensures forall k: nat {:trigger UsedOk(v', k)} :: v'.seen <= k < |v'.reports| ==> UsedOk(v', k)
  {
    forall k: nat | v'.taken <= k < |v'.order| ensures AvailOk(v', k) { assert AvailOk(v, k); }
    forall k: nat | v'.seen <= k < |v'.reports| ensures UsedOk(v', k) { assert UsedOk(v, k); }
  }

  /** Buffer b belongs to no request. */
  ghost predicate NoChain(v: View, b: nat)
  {
    b in v.mem.bufs && forall h :: h in v.chains ==> v.chains[h].b != b
  }

  /** A buffer that is not busy and belongs to no request. */
  ghost predicate Unused(v: View, b: nat)
  {
    NoChain(v, b) && !v.mem.bufs[b].busy
  }

  /** The driver has written to loose descriptors, to what they point to, and to a buffer that
      belongs to no request. */
  ghost predicate Private(v: View, v': View, loose: set<nat>, b: nat)
  {
    && Sizes(v) && Sizes(v') && NoChain(v, b)
    && v' == v.(mem := v.mem.(desc := v'.mem.desc, ops := v'.mem.ops, info := v'.mem.info, bufs := v'.mem.bufs))
    && b in v'.mem.bufs && v'.mem.bufs == v.mem.bufs[b := v'.mem.bufs[b]] && v'.mem.bufs[b].block == v.mem.bufs[b].block
    && forall d: nat :: d < NUM && d !in loose ==>
         v'.mem.desc[d] == v.mem.desc[d] && v'.mem.ops[d] == v.mem.ops[d] && v'.mem.info[d] == v.mem.info[d]
  }

  lemma PrivateOk(v: View, v': View, loose: set<nat>, b: nat)
    requires Ok(v, loose) && Private(v, v', loose, b)
    ensures Ok(v', loose) && NoChain(v', b)
  {
    PrivateChains(v, v', loose, b);
    RingsKept(v, v');
    hide ChainOk, AvailOk, UsedOk;
    forall h | h in v'.chains ensures PhaseOk(v', h) { assert PhaseOk(v, h) && ChainOk(v, h); NotLoose(v, loose, h); }
    forall g, h | g in v'.chains && h in v'.chains ensures BufsApart(v', g, h) { assert BufsApart(v, g, h); }
  }

  lemma NotLoose(v: View, loose: set<nat>, h: nat)
    requires Sizes(v) && Owners(v, loose) && h in v.chains && ChainOk(v, h)
    ensures h < NUM && h !in loose && v.chains[h].d1 !in loose && v.chains[h].d2 !in loose
  {
  }

  lemma PrivateChains(v: View, v': View, loose: set<nat>, b: nat)
    requires Ok(v, loose) && Private(v, v', loose, b)
    ensures Owners(v', loose)
    ensures forall h {:trigger ChainOk(v', h)} :: h in v'.chains ==> ChainOk(v', h)
  {
    hide PhaseOk, AvailOk, UsedOk;
    forall h | h in v'.chains ensures ChainOk(v', h) { assert ChainOk(v, h); NotLoose(v, loose, h); }
  }

  /** The head of a chain to be goes into the next slot of the avail ring, where no other waits. */
  lemma SlotStored(v: View, loose: set<nat>, h: nat)
    requires Ok(v, loose) && h in loose
    ensures |v.order| - v.taken < NUM && Ok(v.(mem := v.mem.(avail := v.mem.avail[|v.order| % NUM := h])), loose)
  {
    LooseUnowned(v, loose);
    assert h in v.chains ==> ChainOk(v, h);
    RoomInAvail(v, loose, h);
    var v' := v.(mem := v.mem.(avail := v.mem.avail[|v.order| % NUM := h]));
    StoredChains(v, v', loose);
    hide Owners, ChainOk, PhaseOk, BufsApart;
    forall k: nat | v'.taken <= k < |v'.order| ensures AvailOk(v', k) {
      assert AvailOk(v, k);
      SlotsApart(k, |v.order|);
    }
    forall k: nat | v'.seen <= k < |v'.reports| ensures UsedOk(v', k) { assert UsedOk(v, k); }
  }

  /** Chains do not depend on the rings. */
  lemma StoredChains(v: View, v': View, loose: set<nat>)
    requires Ok(v, loose) && Sizes(v') &&
               v' == v.(mem := v.mem.(avail := v'.mem.avail, used := v'.mem.used), slot := v'.slot)
    ensures Owners(v', loose)
    ensures forall g {:trigger ChainOk(v', g)} :: g in v'.chains ==> ChainOk(v', g)
    ensures forall g {:trigger PhaseOk(v', g)} :: g in v'.chains ==> PhaseOk(v', g)
    ensures forall f, g {:trigger BufsApart(v', f, g)} :: f in v'.chains && g in v'.chains ==> BufsApart(v', f, g)
  {
    forall g | g in v'.chains ensures ChainOk(v', g) { assert ChainOk(v, g); }
    forall g | g in v'.chains ensures PhaseOk(v', g) { assert PhaseOk(v, g); }
    forall f, g | f in v'.chains && g in v'.chains ensures BufsApart(v', f, g) { assert BufsApart(v, f, g); }
  }

  /** Three loose descriptors say what is asked for, and the avail ring's next slot has their head. */
  ghost predicate Formatted(v: View, h: nat, d1: nat, d2: nat, b: nat, write: bool)
  {
    && Sizes(v) && h < NUM && d1 < NUM && d2 < NUM && b in v.mem.bufs && v.mem.bufs[b].busy
    && v.mem.desc[h] == Header(h, d1) && v.mem.desc[d1] == DataDesc(b, write, d2) && v.mem.desc[d2] == Status(h)
    && v.mem.ops[h] == Op(write, 2 * v.mem.bufs[b].block) && v.mem.info[h].b == Some(b)
    && v.mem.avail[|v.order| % NUM] == h
  }

  /** The index of the avail ring moves on: the request is the device's. */
  function Submitted(v: View, h: nat, d1: nat, d2: nat, b: nat, write: bool): (v': View)
  {
    v.(order := v.order + [h],
       chains := v.chains[h := Chain(|v.order|, d1, d2, b, write, Published)],
       owner := v.owner[h := h][d1 := h][d2 := h])
  }

  ghost predicate CanSubmit(v: View, loose: set<nat>, h: nat, d1: nat, d2: nat, b: nat, write: bool)
  {
    && Ok(v, loose) && loose == {h, d1, d2} && h != d1 && h != d2 && d1 != d2
    && NoChain(v, b) && Formatted(v, h, d1, d2, b, write)
  }

  lemma SubmittedChains(v: View, loose: set<nat>, h: nat, d1: nat, d2: nat, b: nat, write: bool)
    requires CanSubmit(v, loose, h, d1, d2, b, write)
    ensures h !in v.chains
    ensures var v' := Submitted(v, h, d1, d2, b, write);
            && Sizes(v') && Once(v') && SlotOk(v')
            && (forall g {:trigger ChainOk(v', g)} :: g in v'.chains ==> ChainOk(v', g))
  {
    LooseUnowned(v, loose);
    hide Owners;
    var v' := Submitted(v, h, d1, d2, b, write);
    assert h in v.chains ==> ChainOk(v, h);
    forall g | g in v'.chains ensures ChainOk(v', g) {
      if g != h { assert ChainOk(v, g); }
    }
  }

  lemma LooseUnowned(v: View, loose: set<nat>)
    requires |v.mem.free| == NUM && Owners(v, loose)
    ensures forall d :: d in loose ==> d < NUM && d !in v.owner
  {
  }

  lemma SubmittedOwners(v: View, loose: set<nat>, h: nat, d1: nat, d2: nat, b: nat, write: bool)
    requires CanSubmit(v, loose, h, d1, d2, b, write) && h !in v.chains
    ensures Owners(Submitted(v, h, d1, d2, b, write), {})
  {
  }

  lemma SubmittedPhases(v: View, loose: set<nat>, h: nat, d1: nat, d2: nat, b: nat, write: bool)
    requires CanSubmit(v, loose, h, d1, d2, b, write) && h !in v.chains
    ensures var v' := Submitted(v, h, d1, d2, b, write);
            && (forall g {:trigger PhaseOk(v', g)} :: g in v'.chains ==> PhaseOk(v', g))
            && (forall f, g {:trigger BufsApart(v', f, g)} :: f in v'.chains && g in v'.chains ==> BufsApart(v', f, g))
  {
    var v' := Submitted(v, h, d1, d2, b, write);
    forall g | g in v'.chains ensures PhaseOk(v', g) { if g != h { assert PhaseOk(v, g); } }
    forall f, g | f in v'.chains && g in v'.chains ensures BufsApart(v', f, g) {
      if f != h && g != h { assert BufsApart(v, f, g); }
    }
  }

  /** Heads that wait in a ring are distinct, so fewer than NUM wait when a new one comes. */
  lemma RoomInAvail(v: View, loose: set<nat>, h: nat)
    requires Ok(v, loose) && h < NUM && h !in v.chains
    ensures |v.order| - v.taken < NUM
  {
    var waiting := v.order[v.taken..];
    forall i | 0 <= i < |waiting| ensures waiting[i] < NUM && waiting[i] != h {
      assert AvailOk(v, v.taken + i) && ChainOk(v, waiting[i]);
    }
    forall i, j | 0 <= i < j < |waiting| ensures waiting[i] != waiting[j] {
      assert AvailOk(v, v.taken + i) && AvailOk(v, v.taken + j);
    }
    Pigeonhole(waiting + [h], NUM);
  }

  lemma Pigeonhole(s: seq<nat>, n: nat)
    requires Distinct(s) && forall i :: 0 <= i < |s| ==> s[i] < n
    ensures |s| <= n
  {
    DistinctSize(s);
    SubsetSize(Elems(s), Below(n));
  }

  lemma SubmittedRings(v: View, loose: set<nat>, h: nat, d1: nat, d2: nat, b: nat, write: bool)
    requires CanSubmit(v, loose, h, d1, d2, b, write) && h !in v.chains
    ensures var v' := Submitted(v, h, d1, d2, b, write);
            && Sizes(v')
            && (forall k: nat {:trigger AvailOk(v', k)} :: v'.taken <= k < |v'.order| ==> AvailOk(v', k))
            && (forall k: nat {:trigger UsedOk(v', k)} :: v'.seen <= k < |v'.reports| ==> UsedOk(v', k))
  {
    var v' := Submitted(v, h, d1, d2, b, write);
    forall k: nat | v'.taken <= k < |v'.order| ensures AvailOk(v', k) {
      if k < |v.order| { assert AvailOk(v, k); }
    }
    forall k: nat | v'.seen <= k < |v'.reports| ensures UsedOk(v', k) { assert UsedOk(v, k); }
  }

  lemma SubmittedOk(v: View, loose: set<nat>, h: nat, d1: nat, d2: nat, b: nat, write: bool)
    requires CanSubmit(v, loose, h, d1, d2, b, write)
    ensures h !in v.chains && |v.order| - v.taken < NUM
    ensures Ok(Submitted(v, h, d1, d2, b, write), {})
  {
    hide ChainOk, PhaseOk, BufsApart, AvailOk, UsedOk, Owners, Once, SlotOk;
    SubmittedChains(v, loose, h, d1, d2, b, write);
    SubmittedOwners(v, loose, h, d1, d2, b, write);
    SubmittedPhases(v, loose, h, d1, d2, b, write);
    SubmittedRings(v, loose, h, d1, d2, b, write);
    RoomInAvail(v, loose, h);
  }

  /** The device takes the next submission. */
  function TakenNext(v: View): (v': View)
    requires Sizes(v) && v.taken < |v.order| && v.order[v.taken] in v.chains
  {
    var h := v.order[v.taken];
    v.(taken := v.taken + 1, chains := v.chains[h := v.chains[h].(phase := Taken)])
  }

  /** Chain h moves on to another phase; descriptors, owners and buffers stay. */
  ghost predicate Moves(v: View, v': View, h: nat, phase: Phase)
  {
    && Sizes(v) && Sizes(v') && h in v.chains && v'.chains == v.chains[h := v.chains[h].(phase := phase)]
    && v'.mem.free == v.mem.free && v'.mem.desc == v.mem.desc && v'.mem.ops == v.mem.ops && v'.owner == v.owner
    && v'.order == v.order
    && (forall b :: b in v.mem.bufs ==> b in v'.mem.bufs && v'.mem.bufs[b].block == v.mem.bufs[b].block)
    && (forall i :: 0 <= i < NUM ==> v'.mem.info[i].b == v.mem.info[i].b)
  }

  lemma MovesChains(v: View, v': View, loose: set<nat>, h: nat, phase: Phase)
    requires Ok(v, loose) && Moves(v, v', h, phase)
    ensures Owners(v', loose)
    ensures forall g {:trigger ChainOk(v', g)} :: g in v'.chains ==> ChainOk(v', g)
    ensures forall f, g {:trigger BufsApart(v', f, g)} :: f in v'.chains && g in v'.chains ==> BufsApart(v', f, g)
  {
    MovesOwners(v, v', loose, h, phase);
    MovesAll(v, v', h, phase);
    hide ChainOk, PhaseOk, AvailOk, UsedOk, Owners;
    forall f, g | f in v'.chains && g in v'.chains ensures BufsApart(v', f, g) { assert BufsApart(v, f, g); }
  }

  lemma MovesAll(v: View, v': View, h: nat, phase: Phase)
    requires Moves(v, v', h, phase) && forall g {:trigger ChainOk(v, g)} :: g in v.chains ==> ChainOk(v, g)
    ensures forall g {:trigger ChainOk(v', g)} :: g in v'.chains ==> ChainOk(v', g)
  {
    hide ChainOk;
    forall g | g in v'.chains ensures ChainOk(v', g) {
      assert ChainOk(v, g);
      MovesIntact(v, v', h, phase, g);
    }
  }

  lemma MovesIntact(v: View, v': View, h: nat, phase: Phase, g: nat)
    requires Moves(v, v', h, phase) && g in v.chains && ChainOk(v, g)
    ensures ChainOk(v', g)
  {
  }

  lemma MovesOwners(v: View, v': View, loose: set<nat>, h: nat, phase: Phase)
    requires Moves(v, v', h, phase) && Owners(v, loose)
    ensures Owners(v', loose)
  {
  }

  lemma TakenOk(v: View, loose: set<nat>)
    requires Ok(v, loose) && v.taken < |v.order|
    ensures v.order[v.taken] in v.chains && v.mem.avail[v.taken % NUM] == v.order[v.taken]
    ensures v.chains[v.order[v.taken]].phase == Published && v.chains[v.order[v.taken]].k == v.taken
    ensures Ok(TakenNext(v), loose)
  {
    assert AvailOk(v, v.taken);
    var h := v.order[v.taken];
    assert PhaseOk(v, h);
    var v' := TakenNext(v);
    MovesChains(v, v', loose, h, Taken);
    hide Owners, ChainOk, BufsApart;
    forall g | g in v'.chains ensures PhaseOk(v', g) { assert PhaseOk(v, g); }
    forall k: nat | v'.taken <= k < |v'.order| ensures AvailOk(v', k) { assert AvailOk(v, k); }
    forall k: nat | v'.seen <= k < |v'.reports| ensures UsedOk(v', k) { assert UsedOk(v, k); }
  }

  /** The device has made the transfer of chain h; a read leaves `data` in the buffer. */
  function MovedNext(v: View, h: nat, data: Data): (v': View)
    requires Sizes(v) && h < NUM && h in v.chains && v.chains[h].b in v.mem.bufs
  {
    var c := v.chains[h];
    v.(mem := v.mem.(bufs := if c.write then v.mem.bufs else v.mem.bufs[c.b := v.mem.bufs[c.b].(data := data)]),
       chains := v.chains[h := c.(phase := Moved)],
       performed := v.performed + [c.k])
  }

  lemma MovedOk(v: View, loose: set<nat>, h: nat, data: Data)
    requires Ok(v, loose) && h in v.chains && v.chains[h].phase == Taken
    ensures h < NUM && v.chains[h].b in v.mem.bufs && v.chains[h].k !in v.performed
    ensures Ok(MovedNext(v, h, data), loose)
  {
    assert ChainOk(v, h) && PhaseOk(v, h);
    var v' := MovedNext(v, h, data);
    MovesChains(v, v', loose, h, Moved);
    MovedPhases(v, loose, h, data);
    hide Owners, ChainOk, BufsApart, PhaseOk;
    forall k: nat | v'.taken <= k < |v'.order| ensures AvailOk(v', k) { assert AvailOk(v, k); }
    forall k: nat | v'.seen <= k < |v'.reports| ensures UsedOk(v', k) { assert UsedOk(v, k); }
  }

  lemma MovedPhases(v: View, loose: set<nat>, h: nat, data: Data)
    requires Ok(v, loose) && h in v.chains && v.chains[h].phase == Taken && h < NUM && v.chains[h].b in v.mem.bufs
    ensures var v' := MovedNext(v, h, data);
            Once(v') && forall g {:trigger PhaseOk(v', g)} :: g in v'.chains ==> PhaseOk(v', g)
  {
    assert PhaseOk(v, h);
    hide Owners, ChainOk, AvailOk, UsedOk;
    var v' := MovedNext(v, h, data);
    forall g | g in v'.chains ensures PhaseOk(v', g) {
      assert PhaseOk(v, g) && BufsApart(v, g, h);
    }
  }

  /** The device has written the status byte of chain h. */
  function StatusNext(v: View, h: nat): (v': View)
    requires Sizes(v) && h < NUM && h in v.chains
  {
    v.(mem := v.mem.(info := v.mem.info[h := v.mem.info[h].(status := 0)]),
       chains := v.chains[h := v.chains[h].(phase := Performed)])
  }

  lemma StatusOk(v: View, loose: set<nat>, h: nat)
    requires Ok(v, loose) && h in v.chains && v.chains[h].phase == Moved
    ensures h < NUM && Ok(StatusNext(v, h), loose)
  {
    assert ChainOk(v, h);
    var v' := StatusNext(v, h);
    MovesChains(v, v', loose, h, Performed);
    hide Owners, ChainOk, BufsApart;
    forall g | g in v'.chains ensures PhaseOk(v', g) { assert PhaseOk(v, g); }
    hide PhaseOk;
    forall k: nat | v'.taken <= k < |v'.order| ensures AvailOk(v', k) { assert AvailOk(v, k); }
    forall k: nat | v'.seen <= k < |v'.reports| ensures UsedOk(v', k) { assert UsedOk(v, k); }
  }

  lemma RoomInUsed(v: View, loose: set<nat>, h: nat)
    requires Ok(v, loose) && h in v.chains && v.chains[h].phase == Performed
    ensures h < NUM && |v.reports| - v.seen < NUM
  {
    assert ChainOk(v, h);
    var waiting := v.reports[v.seen..];
    forall i | 0 <= i < |waiting| ensures waiting[i] < NUM && waiting[i] != h {
      assert UsedOk(v, v.seen + i) && ChainOk(v, waiting[i]);
    }
    forall i, j | 0 <= i < j < |waiting| ensures waiting[i] != waiting[j] {
      assert UsedOk(v, v.seen + i) && UsedOk(v, v.seen + j);
    }
    Pigeonhole(waiting + [h], NUM);
  }

  /** The device writes the head of a chain that it has performed into the next slot of the used
      ring, where no other waits. */
  lemma SlotFilled(v: View, loose: set<nat>, h: nat)
    requires Ok(v, loose) && h in v.chains && v.chains[h].phase == Performed
    ensures h < NUM && |v.reports| - v.seen < NUM
    ensures Ok(v.(mem := v.mem.(used := v.mem.used[|v.reports| % NUM := h]), slot := Some(h)), loose)
  {
    RoomInUsed(v, loose, h);
    var v' := v.(mem := v.mem.(used := v.mem.used[|v.reports| % NUM := h]), slot := Some(h));
    StoredChains(v, v', loose);
    hide Owners, ChainOk, PhaseOk, BufsApart;
    forall k: nat | v'.taken <= k < |v'.order| ensures AvailOk(v', k) { assert AvailOk(v, k); }
    forall k: nat | v'.seen <= k < |v'.reports| ensures UsedOk(v', k) {
      assert UsedOk(v, k);
      SlotsApart(k, |v.reports|);
    }
  }

  /** The index of the used ring moves on. */
  function Reported(v: View): (v': View)
    requires v.slot.Some? && v.slot.value in v.chains
  {
    var h := v.slot.value;
    v.(reports := v.reports + [h], slot := None, chains := v.chains[h := v.chains[h].(phase := Used(|v.reports|))])
  }

  lemma ReportedOk(v: View, loose: set<nat>)
    requires Ok(v, loose) && v.slot.Some?
    ensures v.slot.value in v.chains && v.chains[v.slot.value].phase == Performed && |v.reports| - v.seen < NUM
    ensures Ok(Reported(v), loose)
  {
    var h := v.slot.value;
    RoomInUsed(v, loose, h);
    var v' := Reported(v);
    MovesChains(v, v', loose, h, Used(|v.reports|));
    hide Owners, ChainOk, BufsApart;
    forall g | g in v'.chains ensures PhaseOk(v', g) { assert PhaseOk(v, g); }
    hide PhaseOk;
    forall k: nat | v'.taken <= k < |v'.order| ensures AvailOk(v', k) { assert AvailOk(v, k); }
    forall k: nat | v'.seen <= k < |v'.reports| ensures UsedOk(v', k) { if k < |v.reports| { assert UsedOk(v, k); } }
  }

  /** The interrupt handler has seen completion v.seen. */
  function SeenNext(v: View): (v': View)
    requires Sizes(v) && v.seen < |v.reports| && v.reports[v.seen] in v.chains &&
               v.chains[v.reports[v.seen]].b in v.mem.bufs
  {
    var h := v.reports[v.seen];
    var b := v.chains[h].b;
    v.(mem := v.mem.(bufs := v.mem.bufs[b := v.mem.bufs[b].(busy := false)]),
       seen := v.seen + 1, chains := v.chains[h := v.chains[h].(phase := Done)])
  }

  lemma SeenOk(v: View, loose: set<nat>)
    requires Ok(v, loose) && v.seen < |v.reports|
    ensures v.reports[v.seen] in v.chains && v.chains[v.reports[v.seen]].b in v.mem.bufs
    ensures Ok(SeenNext(v), loose)
  {
    NextSeen(v, loose);
    var h := v.reports[v.seen];
    var v' := SeenNext(v);
    MovesChains(v, v', loose, h, Done);
    SeenPhases(v, loose, h);
    hide Owners, ChainOk, PhaseOk, BufsApart;
    forall k: nat | v'.taken <= k < |v'.order| ensures AvailOk(v', k) { assert AvailOk(v, k); }
    forall k: nat | v'.seen <= k < |v'.reports| ensures UsedOk(v', k) { assert UsedOk(v, k); }
  }

  lemma SeenPhases(v: View, loose: set<nat>, h: nat)
    requires Ok(v, loose) && v.seen < |v.reports| && h == v.reports[v.seen] && h in v.chains
    requires v.chains[h].phase == Used(v.seen) && v.chains[h].b in v.mem.bufs
    ensures var v' := SeenNext(v); forall g {:trigger PhaseOk(v', g)} :: g in v'.chains ==> PhaseOk(v', g)
  {
    hide Owners, ChainOk, AvailOk, UsedOk;
    var v' := SeenNext(v);
    assert PhaseOk(v, h);
    forall g | g in v'.chains ensures PhaseOk(v', g) { assert PhaseOk(v, g) && BufsApart(v, g, h); }
  }

  /** The request of chain h is over; its descriptors are loose. */
  function Ended(v: View, h: nat): (v': View)
    requires Sizes(v) && h < NUM && h in v.chains
  {
    var c := v.chains[h];
    v.(mem := v.mem.(info := v.mem.info[h := v.mem.info[h].(b := None)]), chains := v.chains - {h},
        owner := v.owner - {h, c.d1, c.d2})
  }

  lemma EndedOk(v: View, h: nat)
    requires Ok(v, {}) && h in v.chains && v.chains[h].phase == Done
    ensures h < NUM && ChainOk(v, h) && v.chains[h].k in v.performed
    ensures Ok(Ended(v, h), {h, v.chains[h].d1, v.chains[h].d2}) && Unused(Ended(v, h), v.chains[h].b)
  {
    assert ChainOk(v, h) && PhaseOk(v, h);
    var v' := Ended(v, h);
    EndedOwners(v, h);
    EndedChains(v, h);
    EndedRings(v, h);
    hide Owners, ChainOk, PhaseOk, AvailOk, UsedOk;
    forall g | g in v'.chains ensures v'.chains[g].b != v.chains[h].b { assert BufsApart(v, g, h); }
  }

  lemma EndedChains(v: View, h: nat)
    requires Ok(v, {}) && h in v.chains && h < NUM
    ensures var v' := Ended(v, h);
            && (forall g {:trigger ChainOk(v', g)} :: g in v'.chains ==> ChainOk(v', g))
            && (forall f, g {:trigger BufsApart(v', f, g)} :: f in v'.chains && g in v'.chains ==> BufsApart(v', f, g))
  {
    hide Owners, PhaseOk, AvailOk, UsedOk;
    var v' := Ended(v, h);
    assert ChainOk(v, h);
    forall g | g in v'.chains ensures ChainOk(v', g) { assert ChainOk(v, g); }
    forall f, g | f in v'.chains && g in v'.chains ensures BufsApart(v', f, g) { assert BufsApart(v, f, g); }
  }

  lemma EndedRings(v: View, h: nat)
    requires Ok(v, {}) && h in v.chains && h < NUM && v.chains[h].phase == Done
    ensures var v' := Ended(v, h);
            && Sizes(v')
            && (forall g {:trigger PhaseOk(v', g)} :: g in v'.chains ==> PhaseOk(v', g))
            && (forall k: nat {:trigger AvailOk(v', k)} :: v'.taken <= k < |v'.order| ==> AvailOk(v', k))
            && (forall k: nat {:trigger UsedOk(v', k)} :: v'.seen <= k < |v'.reports| ==> UsedOk(v', k))
  {
    hide Owners, ChainOk;
    var v' := Ended(v, h);
    assert PhaseOk(v, h);
    forall g | g in v'.chains ensures PhaseOk(v', g) { assert PhaseOk(v, g); }
    forall k: nat | v'.taken <= k < |v'.order| ensures AvailOk(v', k) {
      assert AvailOk(v, k) && PhaseOk(v, v.order[k]);
    }
    forall k: nat | v'.seen <= k < |v'.reports| ensures UsedOk(v', k) { assert UsedOk(v, k); }
  }

  lemma EndedOwners(v: View, h: nat)
    requires Sizes(v) && Owners(v, {}) && h in v.chains && ChainOk(v, h)
    ensures Owners(Ended(v, h), {h, v.chains[h].d1, v.chains[h].d2})
  {
  }

  // ---- What the device may do meanwhile ---------------------------------

  /** The device may have moved request c on; it neither starts nor ends one. */
  predicate Onward(c: Chain, c': Chain)
  {
    && c' == c.(phase := c'.phase) && (c'.phase.Done? <==> c.phase.Done?)
    && (c.phase.Used? ==> c'.phase == c.phase) && (Past(c.phase) ==> Past(c'.phase))
  }

  /** No request is still to fill buffer b. */
  ghost predicate Quiet(v: View, b: nat)
  {
    forall h :: h in v.chains && v.chains[h].b == b ==>
      v.chains[h].write || Past(v.chains[h].phase)
  }

  ghost predicate SameBuf(v: View, v': View, b: nat)
    requires b in v.mem.bufs
  {
    b in v'.mem.bufs && v'.mem.bufs[b] == v.mem.bufs[b].(data := v'.mem.bufs[b].data) &&
        (Quiet(v, b) ==> v'.mem.bufs[b] == v.mem.bufs[b])
  }

  /** From v on, only the device has acted. */
  ghost predicate Later(v: View, v': View)
  {
    && v'.mem.free == v.mem.free && v'.mem.desc == v.mem.desc && v'.mem.avail == v.mem.avail
    && v'.mem.ops == v.mem.ops && v'.owner == v.owner
    && v'.order == v.order && v'.seen == v.seen && v.reports <= v'.reports && v.performed <= v'.performed
    && v'.chains.Keys == v.chains.Keys && (forall h :: h in v.chains ==> Onward(v.chains[h], v'.chains[h]))
    && v'.mem.bufs.Keys == v.mem.bufs.Keys
    && (forall b {:trigger SameBuf(v, v', b)} :: b in v.mem.bufs ==> SameBuf(v, v', b))
    && |v'.mem.info| == |v.mem.info|
    && (forall i: nat :: i < |v.mem.info| ==>
          v'.mem.info[i].b == v.mem.info[i].b && (i !in v.chains ==> v'.mem.info[i] == v.mem.info[i]))
  }

  lemma LaterTwice(v0: View, v1: View, v2: View)
    requires Later(v0, v1) && Later(v1, v2)
    ensures Later(v0, v2)
  {
    forall b | b in v0.mem.bufs ensures SameBuf(v0, v2, b) {
      assert SameBuf(v0, v1, b) && SameBuf(v1, v2, b);
      assert Quiet(v0, b) ==> Quiet(v1, b);
    }
  }

  lemma LaterNoChain(v: View, v': View, b: nat)
    requires Later(v, v') && NoChain(v, b)
    ensures NoChain(v', b) && v'.mem.bufs[b] == v.mem.bufs[b]
  {
    assert SameBuf(v, v', b);
  }

  lemma LaterTaken(v: View)
    requires Sizes(v) && v.taken < |v.order| && v.order[v.taken] in v.chains &&
               v.chains[v.order[v.taken]].phase == Published
    ensures Later(v, TakenNext(v))
  {
    forall b | b in v.mem.bufs ensures SameBuf(v, TakenNext(v), b) { }
  }

  lemma LaterMoved(v: View, h: nat, data: Data)
    requires Sizes(v) && h < NUM && h in v.chains && v.chains[h].b in v.mem.bufs && v.chains[h].phase == Taken
    ensures Later(v, MovedNext(v, h, data))
  {
    forall b | b in v.mem.bufs ensures SameBuf(v, MovedNext(v, h, data), b) { }
  }

  lemma LaterStatus(v: View, h: nat)
    requires Sizes(v) && h < NUM && h in v.chains && v.chains[h].phase == Moved
    ensures Later(v, StatusNext(v, h))
  {
    forall b | b in v.mem.bufs ensures SameBuf(v, StatusNext(v, h), b) { }
  }

  lemma LaterReported(v: View)
    requires Sizes(v) && v.slot.Some? && v.slot.value in v.chains && v.chains[v.slot.value].phase == Performed
    ensures Later(v, Reported(v))
  {
    forall b | b in v.mem.bufs ensures SameBuf(v, Reported(v), b) { }
  }

  lemma LaterFilled(v: View, h: nat)
    requires Sizes(v)
    ensures Later(v, v.(mem := v.mem.(used := v.mem.used[|v.reports| % NUM := h]), slot := Some(h)))
  {
    var v' := v.(mem := v.mem.(used := v.mem.used[|v.reports| % NUM := h]), slot := Some(h));
    forall b | b in v.mem.bufs ensures SameBuf(v, v', b) { }
  }

  lemma LaterSelf(v: View)
    ensures Later(v, v)
  {
    forall b | b in v.mem.bufs ensures SameBuf(v, v, b) { }
  }

  /** The same with other free marks and descriptors. */
  function WithFree(v: View, free: seq<bool>, desc: seq<Desc>): (v': View)
  {
    v.(mem := v.mem.(free := free, desc := desc))
  }

  /** Since v only the device has acted, but for free marks and descriptors. */
  ghost predicate Since(v: View, v': View)
  {
    Later(WithFree(v, v'.mem.free, v'.mem.desc), v')
  }

  lemma LaterFree(v: View, v': View, free: seq<bool>, desc: seq<Desc>)
    requires Later(v, v')
    ensures Later(WithFree(v, free, desc), WithFree(v', free, desc))
  {
    var w, w' := WithFree(v, free, desc), WithFree(v', free, desc);
    forall b | b in w.mem.bufs ensures SameBuf(w, w', b) {
      assert SameBuf(v, v', b);
      assert Quiet(w, b) <==> Quiet(v, b);
    }
  }

  lemma SinceTwice(v0: View, v1: View, v2: View)
    requires Since(v0, v1) && Since(v1, v2)
    ensures Since(v0, v2)
  {
    hide Later;
    LaterFree(WithFree(v0, v1.mem.free, v1.mem.desc), v1, v2.mem.free, v2.mem.desc);
    LaterTwice(WithFree(v0, v2.mem.free, v2.mem.desc), WithFree(v1, v2.mem.free, v2.mem.desc), v2);
  }

  lemma LaterSince(v: View, v': View)
    requires Later(v, v')
    ensures Since(v, v')
  {
    assert WithFree(v, v'.mem.free, v'.mem.desc) == v;
  }

  lemma WrittenSince(v: View, free: seq<bool>, desc: seq<Desc>)
    ensures Since(v, WithFree(v, free, desc))
  {
    LaterSelf(WithFree(v, free, desc));
  }

  /** Since v the device has acted, and the driver has prepared a request for buffer b. */
  ghost predicate Ahead(v: View, v': View, b: nat)
  {
    && v'.order == v.order && v'.seen == v.seen && v'.owner == v.owner && v'.mem.free == v.mem.free
    && v.performed <= v'.performed
    && v'.chains.Keys == v.chains.Keys && (forall h :: h in v.chains ==> Onward(v.chains[h], v'.chains[h]))
    && v'.mem.bufs.Keys == v.mem.bufs.Keys && b in v.mem.bufs
    && (forall x {:trigger SameBuf(v, v', x)} :: x in v.mem.bufs && x != b ==> SameBuf(v, v', x))
    && v'.mem.bufs[b] == v.mem.bufs[b].(busy := v'.mem.bufs[b].busy)
  }

  lemma AheadTwice(v0: View, v1: View, v2: View, b: nat)
    requires Ahead(v0, v1, b) && Ahead(v1, v2, b)
    ensures Ahead(v0, v2, b)
  {
    forall x | x in v0.mem.bufs && x != b ensures SameBuf(v0, v2, x) {
      assert SameBuf(v0, v1, x) && SameBuf(v1, v2, x);
      assert Quiet(v0, x) ==> Quiet(v1, x);
    }
  }

  /** A private write, then the device. */
  lemma PokedAhead(v: View, v1: View, v2: View, loose: set<nat>, b: nat)
    requires Private(v, v1, loose, b) && v1.mem.bufs[b].data == v.mem.bufs[b].data && Later(v1, v2)
    ensures Ahead(v, v2, b) && NoChain(v2, b) && v2.mem.bufs[b] == v1.mem.bufs[b]
  {
    LaterNoChain(v1, v2, b);
    forall x | x in v.mem.bufs && x != b ensures SameBuf(v, v2, x) {
      assert SameBuf(v1, v2, x);
      assert Quiet(v, x) <==> Quiet(v1, x);
    }
  }

  lemma LaterLoose(v: View, v': View, loose: set<nat>)
    requires Later(v, v') && Sizes(v) && Ok(v, loose)
    ensures v'.mem.desc == v.mem.desc && v'.mem.ops == v.mem.ops && v'.mem.avail == v.mem.avail
    ensures forall d: nat :: d < NUM && d in loose ==> v'.mem.info[d] == v.mem.info[d]
  {
    forall d: nat | d < NUM && d in loose ensures d !in v.chains {
      if d in v.chains { assert ChainOk(v, d); NotLoose(v, loose, d); }
    }
  }

  lemma InBufs(v: View, b: nat)
    requires NoChain(v, b)
    ensures b in v.mem.bufs
  {
  }

  /** What the driver may write while it prepares a request. */
  lemma CanPoke(v: View, m: Shared, loose: set<nat>, b: nat, i: nat)
    requires Sizes(v) && NoChain(v, b) && i in loose && i < NUM && |m.ops| == |m.desc| == |m.info| == NUM
    requires m == v.mem.(ops := v.mem.ops[i := m.ops[i]], desc := v.mem.desc[i := m.desc[i]],
                         info := v.mem.info[i := m.info[i]], bufs := m.bufs)
    requires b in m.bufs && m.bufs == v.mem.bufs[b := v.mem.bufs[b].(busy := m.bufs[b].busy)]
    ensures Private(v, v.(mem := m), loose, b)
  {
  }

  /** Request h for buffer b has been handed to the device, which may have gone on since. */
  ghost predicate Added(v: View, v': View, h: nat, b: nat, write: bool)
  {
    && h !in v.chains && v'.chains.Keys == v.chains.Keys + {h} && v'.order == v.order + [h]
    && v'.chains[h].k == |v.order| && v'.chains[h].b == b && v'.chains[h].write == write && !v'.chains[h].phase.Done?
    && (forall x :: x in v.chains ==> Onward(v.chains[x], v'.chains[x]))
    && v'.seen == v.seen && v.performed <= v'.performed
    && v'.mem.bufs.Keys == v.mem.bufs.Keys && b in v.mem.bufs
    && (forall x {:trigger SameBuf(v, v', x)} :: x in v.mem.bufs && x != b ==> SameBuf(v, v', x))
    && v'.mem.bufs[b].busy && v'.mem.bufs[b].block == v.mem.bufs[b].block
    && (write ==> v'.mem.bufs[b].data == v.mem.bufs[b].data)
  }

  lemma AheadAdded(v: View, v1: View, h: nat, d1: nat, d2: nat, b: nat, write: bool)
    requires Ahead(v, v1, b) && h !in v1.chains && v1.mem.bufs[b].busy
    ensures Added(v, Submitted(v1, h, d1, d2, b, write), h, b, write)
  {
    forall x | x in v.mem.bufs && x != b ensures SameBuf(v, Submitted(v1, h, d1, d2, b, write), x) {
      assert SameBuf(v, v1, x);
    }
  }

  lemma SinceAdded(v0: View, v1: View, v2: View, h: nat, b: nat, write: bool)
    requires Since(v0, v1) && Added(v1, v2, h, b, write) && NoChain(v0, b)
    ensures Added(v0, v2, h, b, write)
  {
    var w := WithFree(v0, v1.mem.free, v1.mem.desc);
    assert SameBuf(w, v1, b) && Quiet(w, b);
    forall x | x in v0.mem.bufs && x != b ensures SameBuf(v0, v2, x) {
      assert SameBuf(w, v1, x) && SameBuf(v1, v2, x);
      assert Quiet(v0, x) ==> Quiet(w, x);
      assert Quiet(w, x) ==> Quiet(v1, x);
    }
  }

  lemma AddedLater(v0: View, v1: View, v2: View, h: nat, b: nat, write: bool)
    requires Added(v0, v1, h, b, write) && Later(v1, v2)
    requires forall x :: x in v1.chains && v1.chains[x].b == b ==> x == h
    ensures Added(v0, v2, h, b, write)
  {
    assert SameBuf(v1, v2, b) && (write ==> Quiet(v1, b));
    forall x | x in v0.mem.bufs && x != b ensures SameBuf(v0, v2, x) {
      assert SameBuf(v0, v1, x) && SameBuf(v1, v2, x);
      assert Quiet(v0, x) ==> Quiet(v1, x);
    }
  }

  /** Buffer b is that of request h and of no other. */
  ghost predicate SoleUser(v: View, b: nat, h: nat)
  {
    forall x :: x in v.chains && v.chains[x].b == b ==> x == h
  }

  lemma SoleSubmitted(v: View, h: nat, d1: nat, d2: nat, b: nat, write: bool)
    requires NoChain(v, b)
    ensures SoleUser(Submitted(v, h, d1, d2, b, write), b, h)
  {
  }

  /** Between the slot and the index, the request stays as it was formatted. */
  lemma StillFormatted(v: View, v1: View, v2: View, loose: set<nat>, h: nat, d1: nat, d2: nat, b: nat, write: bool)
    requires Sizes(v) && h in loose && NoChain(v, b) && h < NUM && d1 < NUM && d2 < NUM && v.mem.bufs[b].busy
    requires v.mem.desc[h] == Header(h, d1) && v.mem.desc[d1] == DataDesc(b, write, d2) && v.mem.desc[d2] == Status(h)
    requires v.mem.ops[h] == Op(write, 2 * v.mem.bufs[b].block) && v.mem.info[h].b == Some(b)
    requires v1 == v.(mem := v.mem.(avail := v.mem.avail[|v.order| % NUM := h])) && Ok(v1, loose) && Later(v1, v2) &&
               Sizes(v2)
    ensures Formatted(v2, h, d1, d2, b, write) && NoChain(v2, b) && Ahead(v, v2, b)
  {
    LaterNoChain(v1, v2, b);
    LaterLoose(v1, v2, loose);
    hide Ok;
    forall x | x in v.mem.bufs && x != b ensures SameBuf(v, v2, x) {
      assert SameBuf(v1, v2, x);
      assert Quiet(v, x) <==> Quiet(v1, x);
    }
  }

  lemma AheadThenAdded(v0: View, v1: View, v2: View, h: nat, b: nat, write: bool)
    requires Ahead(v0, v1, b) && Added(v1, v2, h, b, write)
    ensures Added(v0, v2, h, b, write)
  {
    forall x | x in v0.mem.bufs && x != b ensures SameBuf(v0, v2, x) {
      assert SameBuf(v0, v1, x) && SameBuf(v1, v2, x);
      assert Quiet(v0, x) ==> Quiet(v1, x);
    }
  }

  lemma SinceNoChain(v: View, v': View, b: nat)
    requires Since(v, v') && NoChain(v, b)
    ensures NoChain(v', b)
  {
    LaterNoChain(WithFree(v, v'.mem.free, v'.mem.desc), v', b);
  }

  lemma RemovedKeeps(v: View, v': View, h: nat)
    requires Removed(v, v', h)
    ensures h in v.chains && v.chains[h].b in v.mem.bufs
    ensures v'.mem.bufs.Keys == v.mem.bufs.Keys && v'.mem.bufs[v.chains[h].b] == v.mem.bufs[v.chains[h].b]
    ensures v.performed <= v'.performed
  {
  }

  /** Request h is over, and the device may have gone on with the others. */
  ghost predicate Removed(v: View, v': View, h: nat)
  {
    && h in v.chains && v'.chains.Keys == v.chains.Keys - {h}
    && (forall x :: x in v'.chains ==> Onward(v.chains[x], v'.chains[x]))
    && v'.order == v.order && v'.seen == v.seen && v.performed <= v'.performed
    && v'.mem.bufs.Keys == v.mem.bufs.Keys && v.chains[h].b in v.mem.bufs
    && v'.mem.bufs[v.chains[h].b] == v.mem.bufs[v.chains[h].b]
    && (forall x {:trigger SameBuf(v, v', x)} :: x in v.mem.bufs ==> SameBuf(v, v', x))
  }

  lemma EndedRemoved(v: View, v': View, h: nat)
    requires Sizes(v) && h < NUM && h in v.chains && Since(Ended(v, h), v') && NoChain(Ended(v, h), v.chains[h].b)
    ensures Removed(v, v', h) && NoChain(v', v.chains[h].b)
  {
    var b, e := v.chains[h].b, Ended(v, h);
    var w := WithFree(e, v'.mem.free, v'.mem.desc);
    LaterNoChain(w, v', b);
    forall x | x in v.mem.bufs ensures SameBuf(v, v', x) {
      assert SameBuf(w, v', x);
      assert Quiet(v, x) ==> Quiet(w, x);
    }
  }

  // ---- Driver and device ------------------------------------------------

  ghost function FreeSet(free: seq<bool>): (s: set<nat>)
  {
    set d: nat | d < |free| && free[d]
  }

  /** The heads of the chains in a phase. */
  ghost function Heads(chains: map<nat, Chain>, phase: Phase): (s: set<nat>)
  {
    set h | h in chains && chains[h].phase == phase
  }

  ghost predicate Indices(v: View, availIdx: nat, usedIdx: nat, devIdx: nat, seenIdx: nat)
  {
    availIdx == |v.order| % U16 && usedIdx == |v.reports| % U16 && devIdx == v.taken % U16 && seenIdx == v.seen % U16
  }

  /** What the device remembers: the chains that it has taken, whose transfer it has made, and
      whose status it has written; and the one that it is about to report. */
  datatype Engine = Engine(doing: set<nat>, moved: set<nat>, ready: set<nat>, slot: Option<nat>)

  ghost predicate Remembers(v: View, e: Engine)
  {
    && e.slot == v.slot && e.doing == Heads(v.chains, Taken) && e.moved == Heads(v.chains, Moved)
    && e.ready == Heads(v.chains, Performed)
  }

  /** The disk has the blocks that the buffers are for. */
  ghost predicate Backed(bufs: map<nat, Buf>, blocks: map<nat, Data>)
  {
    forall b :: b in bufs ==> bufs[b].block in blocks
  }

  lemma Transferred(bufs: map<nat, Buf>, blocks: map<nat, Data>, b: nat)
    requires Backed(bufs, blocks) && b in bufs
    ensures bufs[b].block in blocks && Backed(bufs[b := bufs[b].(data := blocks[bufs[b].block])], blocks)
    ensures Backed(bufs, blocks[bufs[b].block := bufs[b].data])
  {
  }

  /** The request of chain h is done, for the first time: its block goes to or comes from the
      disk, and nothing else does. */
  ghost predicate Performs(v: View, blocks: map<nat, Data>, h: nat, v': View, blocks': map<nat, Data>)
  {
    && h in v.chains && v.chains[h].phase == Taken && v.chains[h].b in v.mem.bufs
    && var c, buf := v.chains[h], v.mem.bufs[v.chains[h].b];
       && c.k !in v.performed && v'.performed == v.performed + [c.k]
       && v'.chains == v.chains[h := c.(phase := Moved)] && buf.block in blocks
       && if c.write then blocks' == blocks[buf.block := buf.data] && v'.mem.bufs == v.mem.bufs
          else blocks' == blocks && v'.mem.bufs == v.mem.bufs[c.b := buf.(data := blocks[buf.block])]
  }

  lemma MovedPerforms(v: View, blocks: map<nat, Data>, h: nat, data: Data)
    requires Sizes(v) && h < NUM && h in v.chains && v.chains[h].phase == Taken && v.chains[h].b in v.mem.bufs
    requires v.chains[h].k !in v.performed && v.mem.bufs[v.chains[h].b].block in blocks
    requires data == blocks[v.mem.bufs[v.chains[h].b].block]
    ensures var c, buf := v.chains[h], v.mem.bufs[v.chains[h].b];
            Performs(v, blocks, h, MovedNext(v, h, data), if c.write then blocks[buf.block := buf.data] else blocks)
  {
  }

  /** One chain moves from one of the device's lists to the next. */
  lemma EngineMoves(v: View, v': View, h: nat, e: Engine)
    requires Remembers(v, e) && h in v.chains && h in v'.chains
    requires v'.chains == v.chains[h := v.chains[h].(phase := v'.chains[h].phase)]
    ensures v.chains[h].phase == Published && v'.chains[h].phase == Taken ==>
              Remembers(v', e.(doing := e.doing + {h}, slot := v'.slot))
    ensures v.chains[h].phase == Taken && v'.chains[h].phase == Moved ==>
              Remembers(v', e.(doing := e.doing - {h}, moved := e.moved + {h}, slot := v'.slot))
    ensures v.chains[h].phase == Moved && v'.chains[h].phase == Performed ==>
              Remembers(v', e.(moved := e.moved - {h}, ready := e.ready + {h}, slot := v'.slot))
    ensures v.chains[h].phase == Performed && v'.chains[h].phase.Used? ==>
              Remembers(v', e.(ready := e.ready - {h}, slot := v'.slot))
  {
  }

  lemma EngineHas(v: View, h: nat, e: Engine)
    requires Remembers(v, e)
    ensures h in e.doing ==> h in v.chains && v.chains[h].phase == Taken
    ensures h in e.moved ==> h in v.chains && v.chains[h].phase == Moved
    ensures h in e.ready ==> h in v.chains && v.chains[h].phase == Performed
    ensures e.slot == v.slot
  {
  }

  lemma SubmittedEngine(v: View, h: nat, d1: nat, d2: nat, b: nat, write: bool, e: Engine)
    requires Remembers(v, e) && h !in v.chains
    ensures Remembers(Submitted(v, h, d1, d2, b, write), e)
  {
  }

  lemma EndedEngine(v: View, h: nat, e: Engine)
    requires Remembers(v, e) && Sizes(v) && h < NUM && h in v.chains && v.chains[h].phase == Done
    ensures Remembers(Ended(v, h), e)
  {
  }

  /** What the device finds when it follows the descriptors of a chain. */
  /** What the device makes of a chain: len bytes from a sector on go to or come from buffer b, and
      the status goes to record `status`. */
  datatype Order = Order(sector: nat, b: nat, len: nat, write: bool, status: nat)

  /** A block request as section 5.2.6 of VIRTIO 1.1 lays it out, read from the descriptors alone: a
      header of 16 bytes that the device may only read, the data, which it may write exactly if the
      header asks for a read, and one byte of status that it may write, where the chain ends. */
  function Reading(desc: seq<Desc>, ops: seq<Op>, h: nat): (r: Option<Order>)
  {
    if h >= |desc| then None
    else
      var d0 := desc[h];
      if d0.flags % 4 != 1 || d0.len != 16 || !d0.addr.ToOp? || d0.addr.i >= |ops| || d0.next >= |desc| then None
      else
        var op, d1 := ops[d0.addr.i], desc[d0.next];
        if d1.flags % 4 != (if op.write then 1 else 3) || !d1.addr.ToData? || d1.next >= |desc| then None
        else
          var d2 := desc[d1.next];
          if d2.flags % 4 != 2 || d2.len != 1 || !d2.addr.ToStatus? then None
          else Some(Order(op.sector, d1.addr.b, d1.len, op.write, d2.addr.i))
  }

  /** Every chain of a valid view is a request for its block, as many bytes as a block has. */
  lemma ChainReads(v: View, loose: set<nat>, h: nat)
    requires Ok(v, loose) && h in v.chains
    ensures var c := v.chains[h];
            && c.b in v.mem.bufs
            && Reading(v.mem.desc, v.mem.ops, h) == Some(Order(2 * v.mem.bufs[c.b].block, c.b, 1024, c.write, h))
  {
    ChainSays(v, loose, h);
    OkSizes(v, loose);
    hide Ok;
  }

  /** The first len bytes of a block replaced. */
  function Front(was: Data, data: Data, len: nat): (d: Data)
    requires len <= 1024
    ensures len == 1024 ==> d == data
  {
    data[..len] + was[len..]
  }

  lemma ChainSays(v: View, loose: set<nat>, h: nat)
    requires Ok(v, loose) && h in v.chains
    ensures var c := v.chains[h];
            && h < NUM && c.d1 < NUM && c.d2 < NUM && c.b in v.mem.bufs
            && v.mem.ops[h] == Op(c.write, 2 * v.mem.bufs[c.b].block)
            && v.mem.desc[h] == Header(h, c.d1) && v.mem.desc[c.d1] == DataDesc(c.b, c.write, c.d2)
            && v.mem.desc[c.d2] == Status(h)
  {
    assert ChainOk(v, h);
  }

  class Disk {
    var mem: Shared
    var availIdx: nat
    var usedIdx: nat
    var seenIdx: nat  // used_idx
    // The device.
    var devIdx: nat
    var engine: Engine
    var blocks: map<nat, Data>
    // The state as the protocol sees it.
    ghost var g: View

    ghost predicate Valid(loose: set<nat>)
      reads this
    {
      && Ok(g, loose) && mem == g.mem && Indices(g, availIdx, usedIdx, devIdx, seenIdx)
      && Remembers(g, engine) && Backed(mem.bufs, blocks)
    }

    constructor (bufs: map<nat, Buf>, blocks: map<nat, Data>)
      requires forall b :: b in bufs ==> !bufs[b].busy && bufs[b].block in blocks
      ensures Valid({}) && mem.bufs == bufs && this.blocks == blocks && g.chains == map[] && g.performed == []
      ensures forall d :: 0 <= d < NUM ==> mem.free[d]
    {
      var m := Shared(seq(NUM, _ => true), seq(NUM, _ => Desc(Nil, 0, 0, 0)), seq(NUM, _ => 0), seq(NUM, _ => 0),
                      seq(NUM, _ => Info(None, 0)), seq(NUM, _ => Op(false, 0)), bufs);
      mem := m;
      availIdx, usedIdx, seenIdx, devIdx := 0, 0, 0, 0;
      engine := Engine({}, {}, {}, None);
      this.blocks := blocks;
      g := View(m, map[], map[], [], [], 0, 0, None, []);
    }

    // ---- The device -----------------------------------------------------

    /** The device takes the next chain that the driver has made available. */
    method DeviceTake(ghost loose: set<nat>) returns (h: nat)
      requires Valid(loose) && devIdx != availIdx
      modifies this`devIdx, this`engine, this`g
      ensures Valid(loose) && Later(old(g), g)
      ensures h in old(g).chains && old(g).chains[h].phase == Published && old(g).chains[h].k == old(g).taken
      ensures g.chains == old(g).chains[h := old(g).chains[h].(phase := Taken)] && g.performed == old(g).performed
    {
      hide Ok, Later, Remembers, Backed;
      OkSizes(g, loose);
      EngineHas(g, 0, engine);
      assert g.taken < |g.order|;
      TakenOk(g, loose);
      Wrap(g.taken, g.taken);
      LaterTaken(g);
      EngineMoves(g, TakenNext(g), g.order[g.taken], engine);
      h := mem.avail[devIdx % NUM];
      devIdx := (devIdx + 1) % U16;
      engine := engine.(doing := engine.doing + {h});
      g := TakenNext(g);
    }

    /** The device makes the transfer of a chain that it has taken, as its descriptors say. */
    method DevicePerform(h: nat, ghost loose: set<nat>)
      requires Valid(loose) && h in engine.doing
      modifies this`mem, this`blocks, this`engine, this`g
      ensures Valid(loose) && Later(old(g), g) && Performs(old(g), old(blocks), h, g, blocks)
    {
      hide Ok, Later, Remembers, Backed, Performs;
      EngineHas(g, h, engine);
      ChainReads(g, loose, h);
      OkSizes(g, loose);
      var order := Reading(mem.desc, mem.ops, h).value;
      var b, block := order.b, order.sector / 2;
      Transferred(mem.bufs, blocks, b);
      ghost var data := blocks[block];
      MovedOk(g, loose, h, data);
      LaterMoved(g, h, data);
      EngineMoves(g, MovedNext(g, h, data), h, engine);
      MovedPerforms(g, blocks, h, data);
      g := MovedNext(g, h, data);
      engine := engine.(doing := engine.doing - {h}, moved := engine.moved + {h});
      if order.write {
        blocks := blocks[block := Front(blocks[block], mem.bufs[b].data, order.len)];
      } else {
        var filled := Front(mem.bufs[b].data, blocks[block], order.len);
        mem := mem.(bufs := mem.bufs[b := mem.bufs[b].(data := filled)]);
      }
    }

    /** The device writes the status byte of a chain whose transfer it has made. */
    method DeviceStatus(h: nat, ghost loose: set<nat>)
      requires Valid(loose) && h in engine.moved
      modifies this`mem, this`engine, this`g
      ensures Valid(loose) && Later(old(g), g) && Sizes(old(g)) && h < NUM && h in old(g).chains
      ensures old(g).chains[h].phase == Moved && g == StatusNext(old(g), h)
    {
      hide Ok, Later, Remembers, Backed;
      EngineHas(g, h, engine);
      ChainReads(g, loose, h);
      OkSizes(g, loose);
      StatusOk(g, loose, h);
      LaterStatus(g, h);
      EngineMoves(g, StatusNext(g, h), h, engine);
      var i := Reading(mem.desc, mem.ops, h).value.status;
      mem := mem.(info := mem.info[i := mem.info[i].(status := 0)]);
      engine := engine.(moved := engine.moved - {h}, ready := engine.ready + {h});
      g := StatusNext(g, h);
    }

    /** The device writes the head of a performed chain into the next slot of the used ring. */
    method DeviceFill(h: nat, ghost loose: set<nat>)
      requires Valid(loose) && h in engine.ready && engine.slot.None?
      modifies this`mem, this`engine, this`g
      ensures Valid(loose) && Later(old(g), g) && Sizes(old(g))
      ensures h in old(g).chains && old(g).chains[h].phase == Performed
      ensures g == old(g).(mem := old(g).mem.(used := old(g).mem.used[|old(g).reports| % NUM := h]), slot := Some(h))
    {
      hide Ok, Later;
      SlotFilled(g, loose, h);
      OkSizes(g, loose);
      LaterFilled(g, h);
      Wrap(|g.reports|, |g.reports|);
      mem := mem.(used := mem.used[usedIdx % NUM := h]);
      engine := engine.(slot := Some(h));
      g := g.(mem := mem, slot := Some(h));
    }

    /** The device moves the index of the used ring on. */
    method DeviceReport(ghost loose: set<nat>)
      requires Valid(loose) && engine.slot.Some?
      modifies this`usedIdx, this`engine, this`g
      ensures Valid(loose) && Later(old(g), g) && old(g).slot == old(engine).slot
      ensures old(g).slot.value in old(g).chains && g == Reported(old(g))
    {
      hide Ok, Later, Remembers, Backed;
      EngineHas(g, 0, engine);
      OkSizes(g, loose);
      ReportedOk(g, loose);
      LaterReported(g);
      EngineMoves(g, Reported(g), g.slot.value, engine);
      Wrap(|g.reports|, |g.reports|);
      usedIdx := (usedIdx + 1) % U16;
      engine := engine.(ready := engine.ready - {engine.slot.value}, slot := None);
      g := Reported(g);
    }

    /** Any number of device steps, in any order. */
    method Device(ghost loose: set<nat>)
      requires Valid(loose)
      modifies this
      ensures Valid(loose) && Later(old(g), g) && availIdx == old(availIdx) && seenIdx == old(seenIdx)
    {
      hide Valid, Later;
      LaterSelf(g);
      var n: int, i := *, 0;
      while i < n
        invariant Valid(loose) && Later(old(g), g) && availIdx == old(availIdx) && seenIdx == old(seenIdx)
      {
        ghost var v := g;
        var which: int, h: nat := *, 0;
        if d :| d in engine.doing + engine.moved + engine.ready { h := d; }
        if which == 0 && devIdx != availIdx {
          h := DeviceTake(loose);
        } else if which == 1 && h in engine.doing {
          DevicePerform(h, loose);
        } else if which == 2 && h in engine.moved {
          DeviceStatus(h, loose);
        } else if which == 3 && h in engine.ready && engine.slot.None? {
          DeviceFill(h, loose);
        } else if which == 4 && engine.slot.Some? {
          DeviceReport(loose);
        } else {
          LaterSelf(g);
        }
        LaterTwice(old(g), v, g);
        i := i + 1;
      }
    }

    // ---- The driver, with the device at work between its accesses --------

    /** The first free descriptor, marked in use; -1 if there is none. */
    method AllocDesc(ghost loose: set<nat>) returns (r: int)
      requires Valid(loose)
      modifies this
      ensures |mem.free| == |old(mem.free)| == NUM && Since(old(g), g) && mem.desc == old(mem.desc)
      ensures r == -1 ==> Valid(loose) && mem.free == old(mem.free) && forall d: nat :: d < NUM ==> !mem.free[d]
      ensures r != -1 ==>
                && 0 <= r < NUM && old(mem.free)[r] && (forall d: nat :: d < r ==> !old(mem.free)[d])
                && mem.free == old(mem.free)[r := false] && Valid(loose + {r}) && r !in loose
    {
      hide Ok, Since, Remembers, Backed;
      OkSizes(g, loose);
      LaterSelf(g);
      LaterSince(g, g);
      var i := 0;
      while i < NUM
        invariant 0 <= i <= NUM && Valid(loose) && Since(old(g), g) && mem.free == old(mem.free) &&
                    mem.desc == old(mem.desc)
        invariant forall d: nat :: d < i ==> !mem.free[d]
      {
        if mem.free[i] {
          ghost var v := g;
          Mark(i, loose);
          WrittenSince(v, mem.free, mem.desc);
          SinceTwice(old(g), v, g);
          return i;
        }
        ghost var v := g;
        Device(loose);
        LaterSince(v, g);
        SinceTwice(old(g), v, g);
        i := i + 1;
      }
      r := -1;
    }

    /** Descriptor i is marked as in use. */
    method Mark(i: nat, ghost loose: set<nat>)
      requires Valid(loose) && i < NUM && i < |mem.free| && mem.free[i]
      modifies this`mem, this`g
      ensures Valid(loose + {i}) && i !in loose && mem == g.mem
      ensures g == WithFree(old(g), old(mem.free)[i := false], old(mem.desc))
    {
      hide Ok, Backed;
      OkSizes(g, loose);
      FreeUnowned(g, loose, i);
      LooseOk(g, loose, i, false, mem.desc[i], loose + {i});
      assert mem.desc == mem.desc[i := mem.desc[i]];
      mem := mem.(free := mem.free[i := false]);
      g := g.(mem := mem);
    }

    /** Descriptor i, which is loose, changes, or becomes free. */
    method Rewrite(i: nat, f: bool, x: Desc, ghost loose: set<nat>)
      requires Valid(loose) && i in loose
      modifies this`mem, this`g
      ensures Valid(if f then loose - {i} else loose) && i < NUM && |old(mem.free)| == |old(mem.desc)| == NUM &&
                mem == g.mem
      ensures g == WithFree(old(g), old(mem.free)[i := f], old(mem.desc)[i := x])
    {
      hide Ok, Backed;
      OkSizes(g, loose);
      LooseInUse(g, loose, i);
      assert loose + {i} == loose;
      LooseOk(g, loose, i, f, x, if f then loose - {i} else loose);
      mem := mem.(free := mem.free[i := f], desc := mem.desc[i := x]);
      g := g.(mem := mem);
    }

    /** Clear descriptor i and mark it free.  Its panics cannot happen for a loose descriptor. */
    method FreeDesc(i: nat, ghost loose: set<nat>)
      requires Valid(loose) && i in loose
      modifies this
      ensures Valid(loose - {i}) && |old(mem.free)| == |old(mem.desc)| == NUM && i < NUM && Since(old(g), g)
      ensures mem.free == old(mem.free)[i := true] && mem.desc == old(mem.desc)[i := Desc(Nil, 0, 0, 0)]
    {
      hide Ok, Since, Remembers, Backed, Indices;
      OkSizes(g, loose);
      LooseInUse(g, loose, i);
      if i >= NUM || mem.free[i] { assert false; }
      Rewrite(i, false, Desc(Nil, 0, 0, 0), loose);
      WrittenSince(old(g), mem.free, mem.desc);
      ghost var v1 := g;
      Device(loose);
      LaterSince(v1, g);
      SinceTwice(old(g), v1, g);
      ghost var v2 := g;
      Rewrite(i, true, Desc(Nil, 0, 0, 0), loose);
      WrittenSince(v2, mem.free, mem.desc);
      SinceTwice(old(g), v2, g);
    }

    /** Three descriptors, or none at all if there are not three. */
    method Alloc3Desc() returns (ok: bool, idx: seq<nat>)
      requires Valid({})
      modifies this
      ensures |mem.free| == |old(mem.free)| == NUM && Since(old(g), g)
      ensures ok ==>
                && |idx| == 3 && Distinct(idx) && Valid({idx[0], idx[1], idx[2]}) && mem.desc == old(mem.desc)
                && idx[0] < NUM && idx[1] < NUM && idx[2] < NUM
                && mem.free == old(mem.free)[idx[0] := false][idx[1] := false][idx[2] := false]
      ensures !ok ==> Valid({}) && mem.free == old(mem.free) && |FreeSet(mem.free)| < 3
    {
      hide Valid, Since;
      idx := [];
      ghost var loose: set<nat> := {};
      ValidSizes({});
      LaterSelf(g);
      LaterSince(g, g);
      while |idx| < 3
        invariant |idx| <= 3 && Distinct(idx) && Valid(loose) && mem.desc == old(mem.desc) && Since(old(g), g)
        invariant |mem.free| == |old(mem.free)| == NUM
        invariant forall i :: 0 <= i < |idx| ==> idx[i] < NUM && old(mem.free)[idx[i]]
        invariant forall d: nat :: d in loose <==> d in idx
        invariant forall d: nat :: d < NUM ==> mem.free[d] == (old(mem.free)[d] && d !in idx)
        decreases 3 - |idx|
      {
        ghost var v := g;
        var r := AllocDesc(loose);
        SinceTwice(old(g), v, g);
        if r < 0 {
          TooFew(old(mem.free), idx);
          v := g;
          Unalloc(idx, loose, old(mem.free));
          SinceTwice(old(g), v, g);
          return false, idx;
        }
        assert forall d: nat :: d in idx + [r] <==> d in idx || d == r;
        idx := idx + [r];
        loose := loose + {r};
      }
      ok := true;
      assert loose == {idx[0], idx[1], idx[2]};
    }

    lemma ValidSizes(loose: set<nat>)
      requires Valid(loose)
      ensures Sizes(g) && mem == g.mem
    {
    }

    /** alloc3_desc gives back what it already has. */
    method Unalloc(idx: seq<nat>, ghost loose: set<nat>, ghost was: seq<bool>)
      requires Valid(loose) && Distinct(idx) && (forall d: nat :: d in loose <==> d in idx)
      requires |mem.free| == |was| == NUM && (forall i :: 0 <= i < |idx| ==> idx[i] < NUM && was[idx[i]])
      requires forall d: nat :: d < NUM ==> mem.free[d] == (was[d] && d !in idx)
      modifies this
      ensures Valid({}) && mem.free == was && Since(old(g), g)
    {
      hide Valid, Since;
      LaterSelf(g);
      LaterSince(g, g);
      var j := 0;
      ghost var rest := loose;
      while j < |idx|
        invariant 0 <= j <= |idx| && Valid(rest) && |mem.free| == NUM && Since(old(g), g)
        invariant forall d: nat :: d in rest <==> d in idx[j..]
        invariant forall d: nat :: d < NUM ==> mem.free[d] == (was[d] && d !in idx[j..])
      {
        assert idx[j..] == [idx[j]] + idx[j + 1..];
        assert idx[j] in idx[j..] && idx[j] !in idx[j + 1..];
        ghost var v := g;
        FreeDesc(idx[j], rest);
        SinceTwice(old(g), v, g);
        rest := rest - {idx[j]};
        j := j + 1;
      }
      assert rest == {};
    }

    /** The driver writes what only it uses; then the device goes on. */
    method Poke(m: Shared, b: nat, ghost loose: set<nat>)
      requires Valid(loose) && Private(g, g.(mem := m), loose, b) && m.bufs[b].data == mem.bufs[b].data
      modifies this
      ensures Valid(loose) && Ahead(old(g), g, b) && NoChain(g, b)
      ensures mem == g.mem && Sizes(g) && mem.desc == m.desc && mem.ops == m.ops && mem.avail == m.avail &&
                mem.bufs[b] == m.bufs[b]
      ensures |m.info| == NUM && forall d: nat :: d < NUM && d in loose ==> mem.info[d] == m.info[d]
    {
      hide Ok, Later;
      PrivateOk(g, g.(mem := m), loose, b);
      assert Backed(m.bufs, blocks);
      hide Backed;
      mem := m;
      g := g.(mem := m);
      ghost var v1 := g;
      Device(loose);
      OkSizes(g, loose);
      PokedAhead(old(g), v1, g, loose, b);
      LaterLoose(v1, g, loose);
    }

    /** The command of a request and its first two descriptors, one access at a time. */
    method FormatCommand(b: nat, write: bool, i0: nat, i1: nat, i2: nat)
      requires Valid({i0, i1, i2}) && i0 < NUM && i1 < NUM && i2 < NUM && i0 != i1 && i0 != i2 && i1 != i2 &&
                 NoChain(g, b)
      modifies this
      ensures Valid({i0, i1, i2}) && Ahead(old(g), g, b) && NoChain(g, b) && mem == g.mem && Sizes(g)
      ensures mem.desc[i0] == Header(i0, i1) && mem.desc[i1] == DataDesc(b, write, i2)
      ensures b in mem.bufs && mem.ops[i0] == Op(write, 2 * mem.bufs[b].block)
    {
      hide Valid, Ahead, Private, NoChain;
      ghost var loose := {i0, i1, i2};
      ValidSizes(loose);
      InBufs(g, b);
      ghost var v := g;
      var m := mem.(ops := mem.ops[i0 := Op(write, mem.bufs[b].block * (BSIZE / 512))]);
      CanPoke(g, m, loose, b, i0);
      Poke(m, b, loose);
      InBufs(g, b);
      ghost var v1 := g;
      m := mem.(desc := mem.desc[i0 := Desc(ToOp(i0), 16, F_NEXT, i1)]);
      CanPoke(g, m, loose, b, i0);
      Poke(m, b, loose);
      InBufs(g, b);
      AheadTwice(v, v1, g, b);
      ghost var v2 := g;
      var flags := if write then 0 else F_WRITE;
      m := mem.(desc := mem.desc[i1 := Desc(ToData(b), BSIZE, flags + F_NEXT, i2)]);
      CanPoke(g, m, loose, b, i1);
      Poke(m, b, loose);
      InBufs(g, b);
      AheadTwice(v, v2, g, b);
    }

    /** The status of a request, its third descriptor, and its buffer. */
    method FormatStatus(b: nat, i0: nat, i1: nat, i2: nat)
      requires Valid({i0, i1, i2}) && i0 < NUM && i1 < NUM && i2 < NUM && i0 != i1 && i0 != i2 && i1 != i2 &&
                 NoChain(g, b)
      modifies this
      ensures Valid({i0, i1, i2}) && Ahead(old(g), g, b) && NoChain(g, b) && mem == g.mem && Sizes(g) && Sizes(old(g))
      ensures mem.desc == old(mem.desc)[i2 := Status(i0)] && mem.ops == old(mem.ops) &&
                mem.info[i0] == Info(Some(b), 0xff)
      ensures b in mem.bufs && b in old(mem.bufs) && mem.bufs[b] == old(mem.bufs)[b].(busy := true)
    {
      hide Valid, Ahead, Private, NoChain;
      ghost var loose := {i0, i1, i2};
      ValidSizes(loose);
      InBufs(g, b);
      ghost var v := g;
      var m := mem.(info := mem.info[i0 := mem.info[i0].(status := 0xff)]);
      CanPoke(g, m, loose, b, i0);
      Poke(m, b, loose);
      InBufs(g, b);
      ghost var v1 := g;
      m := mem.(desc := mem.desc[i2 := Desc(ToStatus(i0), 1, F_WRITE, 0)]);
      CanPoke(g, m, loose, b, i2);
      Poke(m, b, loose);
      InBufs(g, b);
      AheadTwice(v, v1, g, b);
      ghost var v2 := g;
      m := mem.(bufs := mem.bufs[b := mem.bufs[b].(busy := true)]);
      CanPoke(g, m, loose, b, i0);
      Poke(m, b, loose);
      InBufs(g, b);
      AheadTwice(v, v2, g, b);
      ghost var v3 := g;
      m := mem.(info := mem.info[i0 := mem.info[i0].(b := Some(b))]);
      CanPoke(g, m, loose, b, i0);
      Poke(m, b, loose);
      InBufs(g, b);
      AheadTwice(v, v3, g, b);
    }

    /** Put the head of a chain into the next slot of the avail ring, then move its index on: a
        device that looks in between does not see the new entry. */
    method Publish(h: nat, d1: nat, d2: nat, b: nat, ghost write: bool)
      requires Valid({h, d1, d2}) && h != d1 && h != d2 && d1 != d2 && h < NUM && d1 < NUM && d2 < NUM && NoChain(g, b)
      requires mem.bufs[b].busy && mem.desc[h] == Header(h, d1) && mem.desc[d1] == DataDesc(b, write, d2)
      requires mem.desc[d2] == Status(h) && mem.ops[h] == Op(write, 2 * mem.bufs[b].block) && mem.info[h].b == Some(b)
      modifies this
      ensures Valid({}) && Added(old(g), g, h, b, write) && SoleUser(g, b, h)
    {
      hide Ok, Later, NoChain, Header, DataDesc, Status, Remembers, Backed;
      ghost var v, loose := g, {h, d1, d2};
      OkSizes(g, loose);
      StoreSlot(h, loose);
      ghost var v1 := g;
      Device(loose);
      OkSizes(g, loose);
      StillFormatted(v, v1, g, loose, h, d1, d2, b, write);
      SubmittedOk(g, loose, h, d1, d2, b, write);
      AheadAdded(v, g, h, d1, d2, b, write);
      SoleSubmitted(g, h, d1, d2, b, write);
      SubmittedEngine(g, h, d1, d2, b, write, engine);
      Wrap(|g.order|, |g.order|);
      availIdx := (availIdx + 1) % U16;
      g := Submitted(g, h, d1, d2, b, write);
    }

    /** The next slot of the available ring gets h; the index does not say so yet. */
    method StoreSlot(h: nat, ghost loose: set<nat>)
      requires Valid(loose) && h in loose
      modifies this`mem, this`g
      ensures Valid(loose) && Sizes(old(g)) && mem == g.mem
      ensures g == old(g).(mem := old(g).mem.(avail := old(g).mem.avail[|old(g).order| % NUM := h]))
    {
      hide Ok, Backed;
      OkSizes(g, loose);
      SlotStored(g, loose, h);
      Wrap(|g.order|, |g.order|);
      mem := mem.(avail := mem.avail[availIdx % NUM := h]);
      g := g.(mem := mem);
    }

    /** Format the descriptors of a request and hand it to the device. */
    method Submit(b: nat, write: bool, idx: seq<nat>)
      requires |idx| == 3 && Distinct(idx) && Valid({idx[0], idx[1], idx[2]}) && NoChain(g, b)
      requires idx[0] < NUM && idx[1] < NUM && idx[2] < NUM
      modifies this
      ensures Valid({}) && Added(old(g), g, idx[0], b, write) && SoleUser(g, b, idx[0])
    {
      hide Valid, Ahead, NoChain, Header, DataDesc, Status, Added;
      FormatCommand(b, write, idx[0], idx[1], idx[2]);
      ghost var v1 := g;
      FormatStatus(b, idx[0], idx[1], idx[2]);
      AheadTwice(old(g), v1, g, b);
      ghost var v := g;
      InBufs(g, b);
      Publish(idx[0], idx[1], idx[2], b, write);
      AheadThenAdded(old(g), v, g, idx[0], b, write);
    }

    /** virtio_disk_rw up to the wait: false if it has to sleep for descriptors first. */
    method StartRw(b: nat, write: bool) returns (ok: bool, ghost h: nat)
      requires Valid({}) && NoChain(g, b)
      modifies this
      ensures Valid({})
      ensures !ok ==> |FreeSet(mem.free)| < 3 && mem.free == old(mem.free) && Since(old(g), g)
      ensures ok ==> Added(old(g), g, h, b, write)
    {
      hide Valid, Since, NoChain, Added, Later;
      h := 0;
      var idx;
      ok, idx := Alloc3Desc();
      if !ok { return; }
      ghost var v1 := g;
      SinceNoChain(old(g), v1, b);
      Submit(b, write, idx);
      ghost var v2 := g;
      h := idx[0];
      SinceAdded(old(g), v1, v2, h, b, write);
      Device({});
      AddedLater(old(g), v2, g, h, b, write);
    }

    /** Free the chain that starts at i by following its links. */
    method FreeChain(i: nat, ghost d1: nat, ghost d2: nat, ghost b: nat, ghost write: bool)
      requires Valid({i, d1, d2}) && i != d1 && i != d2 && d1 != d2
      requires |mem.desc| == NUM && i < NUM && d1 < NUM && d2 < NUM
      requires mem.desc[i] == Header(i, d1) && mem.desc[d1] == DataDesc(b, write, d2) && mem.desc[d2] == Status(i)
      modifies this
      ensures Valid({}) && |old(mem.free)| == NUM && mem.free == old(mem.free)[i := true][d1 := true][d2 := true]
      ensures Since(old(g), g)
    {
      hide Valid, Since;
      ValidSizes({i, d1, d2});
      LaterSelf(g);
      LaterSince(g, g);
      var x := i;
      ghost var n := 0;
      while true
        invariant 0 <= n <= 2 && |mem.desc| == NUM && |mem.free| == |old(mem.free)| == NUM && Since(old(g), g)
        invariant n == 0 ==> x == i && Valid({i, d1, d2}) && mem.free == old(mem.free) && mem.desc == old(mem.desc)
        invariant n == 1 ==> && x == d1 && Valid({d1, d2}) && mem.free == old(mem.free)[i := true]
                             && mem.desc[d1] == old(mem.desc)[d1] && mem.desc[d2] == old(mem.desc)[d2]
        invariant n == 2 ==> && x == d2 && Valid({d2}) && mem.free == old(mem.free)[i := true][d1 := true]
                             && mem.desc[d2] == old(mem.desc)[d2]
        decreases 2 - n
      {
        var flag, nxt := mem.desc[x].flags, mem.desc[x].next;
        ghost var loose, v := if n == 0 then {i, d1, d2} else if n == 1 then {d1, d2} else {d2}, g;
        FreeDesc(x, loose);
        SinceTwice(old(g), v, g);
        assert {i, d1, d2} - {i} == {d1, d2} && {d1, d2} - {d1} == {d2} && {d2} - {d2} == {};
        if HasNext(flag) { x := nxt; n := n + 1; } else { break; }
      }
    }

    /** The rest of virtio_disk_rw, once the device no longer owns the buffer. */
    method FinishRw(h: nat)
      requires Valid({}) && h in g.chains && g.chains[h].b in mem.bufs && !mem.bufs[g.chains[h].b].busy
      modifies this
      ensures Valid({}) && old(g).chains[h].k in g.performed && Removed(old(g), g, h)
      ensures Unused(g, old(g).chains[h].b)
    {
      ghost var v, c := g, g.chains[h];
      assert PhaseOk(g, h);
      EndedOk(g, h);
      EndedEngine(g, h, engine);
      ChainSays(g, {}, h);
      hide Ok, Since, Remembers, Removed;
      mem := mem.(info := mem.info[h := mem.info[h].(b := None)]);
      g := Ended(g, h);
      ghost var loose, v1 := {h, c.d1, c.d2}, g;
      Device(loose);
      LaterSince(v1, g);
      ghost var v2 := g;
      FreeChain(h, c.d1, c.d2, c.b, c.write);
      SinceTwice(v1, v2, g);
      EndedRemoved(v, g, h);
      RemovedKeeps(v, g, h);
    }

    /** One iteration of the interrupt handler. */
    method SeeOne()
      requires Valid({}) && seenIdx != usedIdx
      modifies this
      ensures Valid({}) && Handled(old(g), g) && NotDone(g.chains) < NotDone(old(g).chains)
    {
      hide Ok, Handled, Later, NotDone;
      ghost var v := g;
      OkSizes(g, {});
      SeenMore(g);
      NextSeen(g, {});
      Wrap(g.seen, g.seen);
      var id := mem.used[seenIdx % NUM];
      Device({});
      ghost var v1 := g;
      OkSizes(g, {});
      SameReport(v, v1);
      NextSeen(g, {});
      SeenOk(g, {});
      SeenEngine(g, engine);
      SeenHandled(v, v1);
      hide Remembers;
      if mem.info[id].status != 0 { assert false; }
      var b := mem.info[id].b.value;
      mem := mem.(bufs := mem.bufs[b := mem.bufs[b].(busy := false)]);
      seenIdx := (seenIdx + 1) % U16;
      g := SeenNext(g);
    }

    /** The interrupt handler: see every completion that has been reported, also by a device that
        goes on reporting. */
    method Intr()
      requires Valid({})
      modifies this
      ensures Valid({}) && Handled(old(g), g) && g.seen == |g.reports|
      ensures forall h ::
                h in old(g).chains && old(g).chains[h].phase.Used? ==> h in g.chains && g.chains[h].phase.Done?
    {
      hide Ok, Handled, NotDone, Later;
      LaterSelf(g);
      LaterHandled(g, g);
      while seenIdx != usedIdx
        invariant Valid({}) && Handled(old(g), g)
        decreases NotDone(g.chains)
      {
        ghost var v := g;
        SeeOne();
        HandledTwice(old(g), v, g);
        v := g;
        Device({});
        LaterHandled(v, g);
        LaterNotDone(v, g);
        HandledTwice(old(g), v, g);
      }
      AllSeen(g);
      NoneUsed(old(g), g);
    }
  }

  // ---- The interrupt handler --------------------------------------------

  /** Requests whose completion the driver has not seen. */
  ghost function NotDone(chains: map<nat, Chain>): (s: set<nat>)
  {
    set h | h in chains && !chains[h].phase.Done?
  }

  /** Since v requests have moved on or been seen to be done; none began or ended. */
  ghost predicate Handled(v: View, v': View)
  {
    && v'.order == v.order && v.performed <= v'.performed && v'.chains.Keys == v.chains.Keys
    && (forall h :: h in v.chains ==>
          && v'.chains[h] == v.chains[h].(phase := v'.chains[h].phase)
          && (Past(v.chains[h].phase) ==> Past(v'.chains[h].phase))
          && (v.chains[h].phase.Done? || v.chains[h].phase.Used? ==>
                v'.chains[h].phase == v.chains[h].phase || v'.chains[h].phase.Done?))
    && v'.mem.bufs.Keys == v.mem.bufs.Keys
    && forall b :: b in v.mem.bufs ==> && v'.mem.bufs[b].block == v.mem.bufs[b].block
                                       && (Quiet(v, b) ==> v'.mem.bufs[b].data == v.mem.bufs[b].data)
  }

  lemma HandledTwice(v0: View, v1: View, v2: View)
    requires Handled(v0, v1) && Handled(v1, v2)
    ensures Handled(v0, v2)
  {
    assert forall b :: b in v0.mem.bufs && Quiet(v0, b) ==> Quiet(v1, b);
  }

  lemma LaterHandled(v: View, v': View)
    requires Later(v, v')
    ensures Handled(v, v')
  {
    forall b | b in v.mem.bufs ensures v'.mem.bufs[b] == v.mem.bufs[b].(data := v'.mem.bufs[b].data) {
      assert SameBuf(v, v', b);
    }
    forall b | b in v.mem.bufs && Quiet(v, b) ensures v'.mem.bufs[b] == v.mem.bufs[b] { assert SameBuf(v, v', b); }
  }

  lemma LaterNotDone(v: View, v': View)
    requires Later(v, v')
    ensures NotDone(v'.chains) == NotDone(v.chains)
  {
  }

  lemma SameReport(v: View, v': View)
    requires Later(v, v') && v.seen < |v.reports|
    ensures v'.seen == v.seen < |v'.reports| && v'.reports[v'.seen] == v.reports[v.seen]
  {
  }

  /** The next completion names a chain that waits, with status 0. */
  lemma NextSeen(v: View, loose: set<nat>)
    requires Ok(v, loose) && v.seen < |v.reports|
    ensures var h := v.reports[v.seen];
            && h < NUM && h in v.chains && v.chains[h].phase == Used(v.seen) && v.mem.used[v.seen % NUM] == h
            && v.mem.info[h].status == 0 && v.chains[h].b in v.mem.bufs && v.mem.info[h].b == Some(v.chains[h].b)
  {
    assert UsedOk(v, v.seen);
    assert ChainOk(v, v.reports[v.seen]) && PhaseOk(v, v.reports[v.seen]);
  }

  lemma SeenEngine(v: View, e: Engine)
    requires Remembers(v, e) && Sizes(v) && v.seen < |v.reports| && v.reports[v.seen] in v.chains
    requires v.chains[v.reports[v.seen]].b in v.mem.bufs && v.chains[v.reports[v.seen]].phase.Used?
    ensures Remembers(SeenNext(v), e)
  {
  }

  lemma SeenHandled(v: View, v1: View)
    requires Later(v, v1) && Sizes(v1) && v1.seen < |v1.reports| && v1.reports[v1.seen] in v1.chains
    requires v1.chains[v1.reports[v1.seen]].b in v1.mem.bufs && v1.chains[v1.reports[v1.seen]].phase.Used?
    ensures Handled(v, SeenNext(v1)) && NotDone(SeenNext(v1).chains) < NotDone(v.chains)
  {
    hide Later, Handled;
    LaterHandled(v, v1);
    LaterNotDone(v, v1);
    NextHandled(v1);
    HandledTwice(v, v1, SeenNext(v1));
    assert v1.reports[v1.seen] in NotDone(v1.chains);
  }

  lemma NextHandled(v: View)
    requires Sizes(v) && v.seen < |v.reports| && v.reports[v.seen] in v.chains
    requires v.chains[v.reports[v.seen]].b in v.mem.bufs && v.chains[v.reports[v.seen]].phase.Used?
    ensures Handled(v, SeenNext(v))
  {
  }

  lemma NoneUsed(v: View, v': View)
    requires Ok(v', {}) && Handled(v, v') && v'.seen == |v'.reports|
    ensures forall h :: h in v.chains && v.chains[h].phase.Used? ==> h in v'.chains && v'.chains[h].phase.Done?
  {
    forall h | h in v.chains && v.chains[h].phase.Used? ensures h in v'.chains && v'.chains[h].phase.Done? {
      assert PhaseOk(v', h);
    }
  }

  /** A descriptor is free, loose, or in exactly one chain of three; between operations none is loose. */
  lemma FreeOrInOneChain(v: View, loose: set<nat>, d: nat)
    requires Ok(v, loose) && d < NUM
    ensures v.mem.free[d] <==> d !in loose && forall h :: h in v.chains ==> !Member(h, v.chains[h], d)
    ensures d in loose ==> forall h :: h in v.chains ==> !Member(h, v.chains[h], d)
    ensures forall g, h ::
              g in v.chains && h in v.chains && Member(g, v.chains[g], d) && Member(h, v.chains[h], d) ==> g == h
  {
    forall h | h in v.chains && Member(h, v.chains[h], d) ensures d in v.owner && v.owner[d] == h {
      assert ChainOk(v, h);
    }
  }

  lemma OkSizes(v: View, loose: set<nat>)
    requires Ok(v, loose)
    ensures Sizes(v)
  {
  }

  lemma FreeUnowned(v: View, loose: set<nat>, i: nat)
    requires Ok(v, loose) && i < NUM && v.mem.free[i]
    ensures i !in v.owner && i !in loose
  {
  }

  lemma LooseInUse(v: View, loose: set<nat>, i: nat)
    requires Ok(v, loose) && i in loose
    ensures i < NUM && !v.mem.free[i] && i !in v.owner
  {
  }

  lemma TooFew(free: seq<bool>, idx: seq<nat>)
    requires |free| == NUM && |idx| < 3 && forall d: nat :: d < NUM && free[d] ==> d in idx
    ensures |FreeSet(free)| < 3
  {
    DistinctSize(idx);
    SubsetSize(FreeSet(free), Elems(idx));
  }

  /** Fewer than NUM completions can wait, so differing indices mean that one does. */
  lemma SeenMore(v: View)
    requires Ok(v, {}) && v.seen % U16 != |v.reports| % U16
    ensures v.seen < |v.reports|
  {
  }

  lemma AllSeen(v: View)
    requires Ok(v, {}) && v.seen % U16 == |v.reports| % U16
    ensures v.seen == |v.reports|
  {
    var waiting := v.reports[v.seen..];
    forall i | 0 <= i < |waiting| ensures waiting[i] < NUM {
      assert UsedOk(v, v.seen + i) && ChainOk(v, waiting[i]);
    }
    forall i, j | 0 <= i < j < |waiting| ensures waiting[i] != waiting[j] {
      assert UsedOk(v, v.seen + i) && UsedOk(v, v.seen + j);
    }
    Pigeonhole(waiting, NUM);
    Wrap(v.seen, |v.reports|);
  }
}
