/** The redo log of kernel/log.c, running over the buffer cache.

    The methods follow the C functions one block copy at a time; every disk
    write they cause is a state in `cache.disk.history`, so the contracts of
    `Commit` and `RecoverFromLog` speak about every point at which the machine
    may stop.  Sleeping callers and interleavings are the subject of the
    GroupCommit module; here each function runs while no other code holds a
    buffer.
 */
module WriteAheadLog {
  import opened Words
  import opened Counting
  import opened BufferCache
  import opened LogSpec

  /** No one waits for or holds a buffer: the only references are pins. */
  predicate Resting(u: Users)
  {
    u.waiting == multiset{} && u.held == map[]
  }

  // ---- bread as the log code uses it ------------------------------------

  /** Without waiters, bread finds a buffer as long as fewer than NBUF are in use. */
  method Get(c: Cache, b: nat) returns (i: nat)
    requires c.Valid() && c.users.waiting == multiset{}
    requires b < |c.logical| && b !in c.users.held.Values
    requires b in c.users.pinned.Values || |c.users.held| + |c.users.pinned| < NBUF
    modifies c.buf, c`users
    ensures c.Valid()
    ensures i < NBUF && c.buf[i].data == c.logical[b]
    ensures i !in old(c.users.held) && c.users == old(c.users).(held := old(c.users.held)[i := b])
    ensures forall j :: 0 <= j < NBUF && j != i ==> c.buf[j] == old(c.buf[j])
  {
    Roomy(c.buf[..], c.users, b);
    i := c.Bread(b);
  }

  /** brelse, without its effect on the recency order. */
  method Put(c: Cache, i: nat)
    requires c.Valid() && i in c.users.held
    requires c.users.held[i] in c.dirty ==> c.users.held[i] in c.users.pinned.Values
    modifies c.buf, c`users, c.lru, c.lru.next, c.lru.prev
    ensures c.Valid() && c.users == old(c.users).(held := old(c.users.held) - {i})
  {
    hide Cache.Valid;
    c.Brelse(i);
  }

  /** memmove into a held buffer. */
  method Change(c: Cache, i: nat, d: Block)
    requires c.Valid() && i in c.users.held && c.users.held[i] < |c.logical|
    modifies c`logical, c`dirty, c.buf
    ensures c.Valid() && c.logical == old(c.logical)[c.users.held[i] := d] &&
              c.dirty == old(c.dirty) + {c.users.held[i]}
  {
    hide Cache.Valid;
    c.Modify(i, d);
  }

  /** bpin, without its effect on the buffer. */
  method Pin(c: Cache, i: nat)
    requires c.Valid() && i in c.users.held && i !in c.users.pinned
    modifies c.buf, c`users
    ensures c.Valid() && c.users == old(c.users).(pinned := old(c.users.pinned)[i := old(c.users.held)[i]])
  {
    hide Cache.Valid;
    c.Bpin(i);
  }

  /** memmove into a held buffer followed by bwrite. */
  method Store(c: Cache, i: nat, d: Block)
    requires c.Valid() && i in c.users.held && c.users.held[i] < |c.logical|
    modifies c`logical, c`dirty, c.buf, c.disk
    ensures c.Valid()
    ensures |old(c.disk.blocks)| == |old(c.logical)|
    ensures c.logical == old(c.logical)[c.users.held[i] := d]
    ensures c.disk.blocks == old(c.disk.blocks)[c.users.held[i] := d]
    ensures c.disk.history == old(c.disk.history) + [c.disk.blocks]
    ensures c.dirty == old(c.dirty) - {c.users.held[i]}
  {
    c.Modify(i, d);
    c.Bwrite(i);
  }

  /** The two breads of a copy. */
  method OpenPair(c: Cache, a: nat, b: nat) returns (i: nat, j: nat)
    requires c.Valid() && Resting(c.users)
    requires a < |c.logical| && b < |c.logical| && a != b
    requires |c.users.pinned| < NBUF && (b in c.users.pinned.Values || c.users.pinned == map[])
    modifies c.buf, c`users
    ensures c.Valid()
    ensures i != j && c.users == old(c.users).(held := map[i := a, j := b])
    ensures i < NBUF && c.buf[i].data == c.logical[a]
    ensures j < NBUF && c.buf[j].data == c.logical[b]
  {
    hide Cache.Valid;
    i := Get(c, a);
    assert c.users.held == map[i := a];
    j := Get(c, b);
  }

  /** The two brelses of a copy. */
  method ClosePair(c: Cache, i: nat, j: nat, ghost a: nat, ghost b: nat)
    requires c.Valid() && i != j && c.users.held == map[i := a, j := b]
    requires (a in c.dirty ==> a in c.users.pinned.Values) && (b in c.dirty ==> b in c.users.pinned.Values)
    modifies c.buf, c`users, c.lru, c.lru.next, c.lru.prev
    ensures c.Valid() && c.users == old(c.users).(held := map[])
  {
    hide Cache.Valid;
    ghost var u := c.users;
    Put(c, i);
    Put(c, j);
    assert u.held - {i} - {j} == map[];
  }

  /** One round of write_log's loop: cache block src goes to log block dst. */
  method CopyToLog(c: Cache, dst: nat, src: nat)
    requires c.Valid() && Resting(c.users)
    requires dst < |c.logical| && src < |c.logical| && dst != src
    requires |c.users.pinned| < NBUF && src in c.users.pinned.Values
    modifies c`users, c`logical, c`dirty, c.disk, c.buf, c.lru, c.lru.next, c.lru.prev
    ensures c.Valid() && c.users == old(c.users)
    ensures |old(c.disk.blocks)| == |old(c.logical)|
    ensures c.logical == old(c.logical)[dst := old(c.logical)[src]]
    ensures c.disk.blocks == old(c.disk.blocks)[dst := old(c.logical)[src]]
    ensures c.disk.history == old(c.disk.history) + [c.disk.blocks]
    ensures c.dirty == old(c.dirty) - {dst}
  {
    hide Cache.Valid;
    var to, from := OpenPair(c, dst, src);
    Store(c, to, c.buf[from].data);
    ClosePair(c, from, to, src, dst);
  }

  /** The optional bunpin at the end of install_trans's loop body. */
  method Unpin(c: Cache, i: nat)
    requires c.Valid() && i in c.users.held && c.users.held[i] in c.users.pinned.Values
    modifies c.buf, c`users
    ensures c.Valid()
    ensures i in old(c.users.pinned) && old(c.users.pinned)[i] == old(c.users.held)[i]
    ensures c.users == old(c.users).(pinned := old(c.users.pinned) - {i})
  {
    PinnedWhereHeld(c.buf[..], c.users, i);
    c.Bunpin(i);
  }

  /** One round of install_trans's loop: log block src goes to home block dst. */
  method CopyHome(c: Cache, src: nat, dst: nat, recovering: bool) returns (ghost s: nat)
    requires c.Valid() && Resting(c.users)
    requires dst < |c.logical| && src < |c.logical| && dst != src && src !in c.dirty
    requires |c.users.pinned| < NBUF
    requires if recovering then c.users.pinned == map[] else dst in c.users.pinned.Values
    modifies c`users, c`logical, c`dirty, c.disk, c.buf, c.lru, c.lru.next, c.lru.prev
    ensures c.Valid() && Resting(c.users)
    ensures |old(c.disk.blocks)| == |old(c.logical)|
    ensures c.logical == old(c.logical)[dst := old(c.logical)[src]]
    ensures c.disk.blocks == old(c.disk.blocks)[dst := old(c.logical)[src]]
    ensures c.disk.history == old(c.disk.history) + [c.disk.blocks]
    ensures c.dirty == old(c.dirty) - {dst}
    ensures recovering ==> c.users.pinned == map[]
    ensures !recovering ==>
              && s in old(c.users.pinned) && old(c.users.pinned)[s] == dst
              && c.users.pinned == old(c.users.pinned) - {s}
  {
    hide Cache.Valid;
    var lbuf, dbuf := OpenPair(c, src, dst);
    s := dbuf;
    Store(c, dbuf, c.buf[lbuf].data);
    if !recovering {
      Unpin(c, dbuf);
    }
    ClosePair(c, lbuf, dbuf, src, dst);
  }

  /** Equal except possibly in the log blocks behind the header. */
  ghost predicate SameOutsideLog(r: Region, a: seq<Block>, b: seq<Block>)
  {
    |a| == |b| && forall k :: 0 <= k < |a| && !(r.start < k < r.start + r.size) ==> a[k] == b[k]
  }

  ghost predicate EntryCopied(r: Region, logical: seq<Block>, disk: seq<Block>, t: seq<nat>, i: nat)
    requires |logical| == |disk| && r.start + |t| < |logical| && i < |t| && t[i] < |logical|
  {
    logical[r.start + 1 + i] == disk[r.start + 1 + i] == logical[t[i]]
  }

  /** The first k log blocks, cached and on disk, hold the contents of their home blocks. */
  ghost predicate LogCopied(r: Region, logical: seq<Block>, disk: seq<Block>, t: seq<nat>, k: nat)
    requires k <= |t|
  {
    && |logical| == |disk| && r.start + |t| < |logical|
    && HomeBlocks(r, t, |logical|)
    && forall i: nat :: i < k ==> EntryCopied(r, logical, disk, t, i)
  }

  lemma NoneCopied(r: Region, logical: seq<Block>, disk: seq<Block>, t: seq<nat>)
    requires |logical| == |disk| && r.start + |t| < |logical| && HomeBlocks(r, t, |logical|)
    ensures LogCopied(r, logical, disk, t, 0)
  {
  }

  lemma LogCopiedStep(r: Region, logical: seq<Block>, disk: seq<Block>, t: seq<nat>, k: nat)
    requires k < |t| && LogCopied(r, logical, disk, t, k) && |t| < r.size
    ensures var d, b := logical[t[k]], r.start + k + 1;
            LogCopied(r, logical[b := d], disk[b := d], t, k + 1)
  {
    var d, b := logical[t[k]], r.start + k + 1;
    var l', d' := logical[b := d], disk[b := d];
    forall i: nat | i < k + 1
      ensures EntryCopied(r, l', d', t, i)
    {
      assert InRegion(r, b) && !InRegion(r, t[i]);
      if i < k { assert EntryCopied(r, logical, disk, t, i); }
    }
  }

  /** Entries k.. of the log list are pinned, each in its own buffer, and nothing else is. */
  ghost predicate PinnedFrom(pinned: map<nat, nat>, t: seq<nat>, k: nat)
    requires k <= |t|
  {
    pinned.Values == Elems(t[k..]) && |pinned| == |t| - k && Distinct(t)
  }

  lemma DistinctTail(t: seq<nat>, k: nat)
    requires k < |t| && Distinct(t)
    ensures |Elems(t[k..])| == |t| - k && Elems(t[k..]) == Elems(t[k + 1..]) + {t[k]} && t[k] !in t[k + 1..]
  {
    assert t[k..] == [t[k]] + t[k + 1..];
    DistinctSize(t[k..]);
    ElemsPush(t[k], t[k + 1..]);
  }

  lemma OneLess(p: map<nat, nat>, s: nat)
    requires s in p
    ensures |p - {s}| == |p| - 1 && p.Values == (p - {s}).Values + {p[s]}
  {
    var q := p - {s};
    assert p.Keys == q.Keys + {s};
    forall x | x in p.Values && x != p[s] ensures x in q.Values {
      var i :| i in p && p[i] == x;
      assert q[i] == x;
    }
  }

  /** Unpinning entry k leaves the entries behind it pinned. */
  lemma PinnedFromStep(p: map<nat, nat>, t: seq<nat>, k: nat, s: nat)
    requires k < |t| && PinnedFrom(p, t, k) && s in p && p[s] == t[k]
    ensures PinnedFrom(p - {s}, t, k + 1)
  {
    DistinctTail(t, k);
    OneLess(p, s);
    ValuesSize(p - {s});
    hide Distinct, Elems;
    var v, b := (p - {s}).Values, t[k];
    assert b in v ==> v + {b} == v;
  }

  lemma CleanAgreesAll(c: Cache)
    requires c.Valid()
    ensures forall b: nat :: b < |c.logical| && b !in c.dirty ==> c.disk.blocks[b] == c.logical[b]
  {
  }

  lemma CleanAgrees(c: Cache, b: nat)
    requires c.Valid() && b < |c.logical| && b !in c.dirty
    ensures c.disk.blocks[b] == c.logical[b]
  {
  }

  /** With nothing held, every block newer than the disk is pinned. */
  lemma RestingDirty(c: Cache)
    requires c.Valid() && Resting(c.users)
    ensures c.dirty <= c.users.pinned.Values
  {
    forall b | b in c.dirty ensures b in c.users.pinned.Values {
      assert Newer(c.dirty, b);
    }
  }

  /** Copying the log home does not change the logical contents it came from. */
  lemma InstallIsQuiet(r: Region, logical: seq<Block>, disk: seq<Block>, t: seq<nat>, h: Block)
    requires |t| < r.size && r.start + r.size <= |logical| && LogCopied(r, logical, disk, t, |t|)
    ensures Fits(r, logical[r.start := h], t)
    ensures SameHome(r, logical, Installed(r, logical[r.start := h], t, |t|))
  {
    var l := logical[r.start := h];
    forall b: nat | b < |l| && !InRegion(r, b)
      ensures Installed(r, l, t, |t|)[b] == logical[b]
    {
      InstalledAt(r, l, t, |t|, b);
      var i := LastEntry(t, |t|, b);
      if i >= 0 { assert EntryCopied(r, logical, disk, t, i); }
    }
  }

  lemma AllStateHome(r: Region, h: seq<Block>, a: seq<Block>, b: seq<Block>)
    requires AllState(r, h, a) && SameHome(r, a, b)
    ensures AllState(r, h, b)
  {
  }

  /** The header write makes exactly the logical contents recoverable, and
      copying the log home will not change them. */
  lemma HeaderCommits(r: Region, logical: seq<Block>, disk: seq<Block>, t: seq<nat>, h: Block)
    requires 0 < r.size <= LOGSIZE && r.start + r.size <= |disk| && |t| < r.size
    requires LogCopied(r, logical, disk, t, |t|)
    requires Word(h, 0) == |t| && Targets(h) == t
    requires forall b: nat :: b < |disk| && !InRegion(r, b) && b !in t ==> disk[b] == logical[b]
    ensures var l := logical[r.start := h];
            && AllState(r, disk[r.start := h], l) && Fits(r, l, t)
            && SameHome(r, logical, l) && SameHome(r, l, Installed(r, l, t, |t|))
  {
    hide Recovered, Installed, AllState;
    var d := disk[r.start := h];
    forall i: nat | i < |t| ensures d[r.start + 1 + i] == logical[t[i]] {
      assert EntryCopied(r, logical, disk, t, i);
    }
    CommitPoint(r, d, logical);
    InstallIsQuiet(r, logical, disk, t, h);
    AllStateHome(r, d, logical, logical[r.start := h]);
  }

  /** A commit took place: the home blocks on disk are the logical ones, and the
      disk went there through none-or-all states only. */
  ghost predicate Committed(r: Region, before: seq<Block>, logical: seq<Block>, logical': seq<Block>, after: seq<Block>,
                            was: seq<seq<Block>>, now: seq<seq<Block>>)
  {
    && SameHome(r, logical, logical') && SameHome(r, after, logical')
    && was <= now && exists c: nat :: CommitTrace(r, before, logical', now[|was|..], c)
  }

  /** The states of the four phases of commit, in order. */
  lemma CommitStates(r: Region, d0: seq<Block>, l: seq<Block>, logging: seq<seq<Block>>, d2: seq<Block>, d4: seq<Block>)
    requires 0 < r.size <= LOGSIZE && r.start + r.size <= |d0| && Word(d0[r.start], 0) == 0
    requires forall j :: 0 <= j < |logging| ==> SameOutsideLog(r, d0, logging[j])
    requires AllState(r, d2, l) && AllState(r, d4, l)
    ensures var t := Targets(d2[r.start]);
            CommitTrace(r, d0, l, logging + [d2] + InstallTrace(r, d2, t, |t|) + [d4], |logging|)
  {
    var t := Targets(d2[r.start]);
    var states := logging + [d2] + InstallTrace(r, d2, t, |t|) + [d4];
    forall j | 0 <= j < |states|
      ensures j < |logging| ==> NoneState(r, states[j], d0)
      ensures j >= |logging| ==> AllState(r, states[j], l)
    {
      if j < |logging| {
        BeforeHeader(r, d0, states[j]);
      } else if |logging| < j < |states| - 1 {
        assert states[j] == InstallTrace(r, d2, t, |t|)[j - |logging| - 1];
        InstallingKeepsAll(r, d2, l, states[j]);
      }
    }
  }

  lemma HistoryTail<T>(h: seq<T>, a: seq<T>, b: seq<T>, c: seq<T>, d: seq<T>)
    ensures (h + a + b + c + d)[|h|..] == a + b + c + d
    ensures h <= h + a + b + c + d
  {
    assert h + a + b + c + d == h + (a + b + c + d);
  }

  lemma HomeBlocksMore(r: Region, t: seq<nat>, b: nat, size: nat)
    requires HomeBlocks(r, t, size) && b < size && !InRegion(r, b)
    ensures HomeBlocks(r, t + [b], size)
  {
  }

  lemma NoHomeBlocks(r: Region, t: seq<nat>, size: nat)
    requires t == []
    ensures HomeBlocks(r, t, size)
  {
  }

  lemma PinnedCount(p: map<nat, nat>, t: seq<nat>, k: nat)
    requires k <= |t| && PinnedFrom(p, t, k)
    ensures |p| == |t| - k && forall i :: k <= i < |t| ==> t[i] in p.Values
  {
    forall i | k <= i < |t| ensures t[i] in p.Values { assert t[i] == t[k..][i - k]; }
  }

  lemma PinnedElems(p: map<nat, nat>, t: seq<nat>)
    requires PinnedFrom(p, t, 0)
    ensures p.Values == Elems(t) && |p| == |t|
  {
    assert t[0..] == t;
  }

  lemma HeldFacts(c: Cache, i: nat)
    requires c.Valid() && i in c.users.held
    ensures i < NBUF && c.buf[i].blockno == c.users.held[i]
    ensures c.users.held[i] in c.users.pinned.Values <==> i in c.users.pinned
  {
    PinnedWhereHeld(c.buf[..], c.users, i);
    assert c.buf[..][i] == c.buf[i];
  }

  lemma PinnedMore(p: map<nat, nat>, t: seq<nat>, i: nat, b: nat)
    requires PinnedFrom(p, t, 0) && i !in p && b !in t
    ensures PinnedFrom(p[i := b], t + [b], 0)
  {
    MoreValues(p, i, b);
    ElemsAppend(t, b);
    DistinctAppend(t, b);
    OneMore(p, i, b);
    hide Distinct, Elems;
    assert t[0..] == t && (t + [b])[0..] == t + [b];
  }

  lemma NotPinned(p: map<nat, nat>, t: seq<nat>, b: nat)
    requires PinnedFrom(p, t, 0) && b !in t
    ensures b !in p.Values
  {
    assert t[0..] == t;
  }

  lemma OneMore(m: map<nat, nat>, i: nat, b: nat)
    requires i !in m
    ensures |m[i := b]| == |m| + 1
  {
    assert m[i := b].Keys == m.Keys + {i};
  }

  lemma DistinctAppend(t: seq<nat>, b: nat)
    requires Distinct(t) && b !in t
    ensures Distinct(t + [b])
  {
  }

  /** The list names blocks among those of the first k updates, each once. */
  ghost predicate Listed(list: seq<nat>, updates: seq<(nat, Block)>, k: nat)
    requires k <= |updates|
  {
    Distinct(list) && Elems(list) <= UpdatedBlocks(updates, k)
  }

  lemma NoneListed(list: seq<nat>, updates: seq<(nat, Block)>)
    requires list == []
    ensures Listed(list, updates, 0)
  {
  }

  lemma ListBound(list: seq<nat>, updates: seq<(nat, Block)>, k: nat)
    requires k <= |updates| && Listed(list, updates, k)
    ensures |list| <= |UpdatedBlocks(updates, k)|
  {
    DistinctSize(list);
    SubsetSize(Elems(list), UpdatedBlocks(updates, k));
  }

  lemma ListMore(list: seq<nat>, list': seq<nat>, updates: seq<(nat, Block)>, k: nat)
    requires k < |updates| && Listed(list, updates, k)
    requires list' == if updates[k].0 in list then list else list + [updates[k].0]
    ensures Listed(list', updates, k + 1)
  {
    assert UpdatedBlocks(updates, k + 1) == UpdatedBlocks(updates, k) + {updates[k].0};
    ElemsAppend(list, updates[k].0);
  }

  class Log {
    const cache: Cache
    const region: Region       // log.start and log.size
    const block: array<nat>    // lh.block
    var n: nat                 // lh.n
    var outstanding: nat
    var committing: bool

    ghost predicate Base()
      reads this, block, cache, cache.disk, cache.buf, cache.lru, cache.lru.next, cache.lru.prev
      ensures Base() ==> cache.Valid() && block.Length == LOGSIZE && n < LOGSIZE
    {
      && cache.Valid()
      && block.Length == LOGSIZE && block != cache.lru.next && block != cache.lru.prev
      && 0 < region.size <= LOGSIZE && region.start + region.size <= |cache.logical| < U32
      && n < region.size
      && HomeBlocks(region, block[..n], |cache.logical|)
      && (forall b :: Newer(cache.dirty, b) ==> !InRegion(region, b))
    }

    /** initlog: the log of a freshly booted machine, after recovery. */
    constructor (cache: Cache, region: Region)
      requires cache.Valid() && cache.users == Users(multiset{}, map[], map[]) && cache.dirty == {}
      requires |cache.logical| < U32 && WellFormed(region, cache.disk.blocks)
      modifies cache, cache.disk, cache.buf, cache.lru, cache.lru.next, cache.lru.prev
      ensures Valid() && Resting(cache.users) && this.cache == cache && this.region == region
      ensures n == 0 && outstanding == 0 && !committing
      ensures cache.logical == cache.disk.blocks == Recovered(region, old(cache.disk.blocks))
      ensures RecoveryTrace(region, old(cache.disk.blocks), old(cache.disk.history), cache.disk.history)
    {
      this.cache := cache;
      this.region := region;
      block := new nat[LOGSIZE];
      n, outstanding, committing := 0, 0, false;
      new;
      RecoverFromLog();
    }

    /** Each block of the transaction goes to its place behind the header. */
    method WriteLog() returns (ghost logging: seq<seq<Block>>)
      requires Base() && Resting(cache.users) && PinnedFrom(cache.users.pinned, block[..n], 0)
      modifies cache`users, cache`logical, cache`dirty, cache.disk, cache.buf, cache.lru, cache.lru.next, cache.lru.prev
      ensures Base() && cache.users == old(cache.users) && cache.dirty == old(cache.dirty)
      ensures SameOutsideLog(region, old(cache.logical), cache.logical)
      ensures SameOutsideLog(region, old(cache.disk.blocks), cache.disk.blocks)
      ensures LogCopied(region, cache.logical, cache.disk.blocks, block[..n], n)
      ensures cache.disk.history == old(cache.disk.history) + logging
      ensures forall j :: 0 <= j < |logging| ==> SameOutsideLog(region, old(cache.disk.blocks), logging[j])
    {
      hide Cache.Valid, PinnedFrom, LogCopied;
      ghost var t := block[..n];
      PinnedCount(cache.users.pinned, t, 0);
      logging := [];
      NoneCopied(region, cache.logical, cache.disk.blocks, t);
      var tail := 0;
      while tail < n
        invariant tail <= n && block[..n] == t
        invariant Base() && cache.users == old(cache.users) && cache.dirty == old(cache.dirty)
        invariant SameOutsideLog(region, old(cache.logical), cache.logical)
        invariant SameOutsideLog(region, old(cache.disk.blocks), cache.disk.blocks)
        invariant LogCopied(region, cache.logical, cache.disk.blocks, t, tail)
        invariant cache.disk.history == old(cache.disk.history) + logging
        invariant forall j :: 0 <= j < |logging| ==> SameOutsideLog(region, old(cache.disk.blocks), logging[j])
      {
        assert block[tail] == t[tail];
        assert !Newer(cache.dirty, region.start + tail + 1);
        LogCopiedStep(region, cache.logical, cache.disk.blocks, t, tail);
        CopyToLog(cache, region.start + tail + 1, block[tail]);
        logging := logging + [cache.disk.blocks];
        tail := tail + 1;
      }
    }

    /** The list of the transaction goes into the header block, in one write. */
    method WriteHead()
      requires Base() && Resting(cache.users) && |cache.users.pinned| < NBUF
      modifies cache`users, cache`logical, cache`dirty, cache.disk, cache.buf, cache.lru, cache.lru.next, cache.lru.prev
      ensures Base() && cache.users == old(cache.users) && cache.dirty == old(cache.dirty)
      ensures Word(cache.disk.blocks[region.start], 0) == n && Targets(cache.disk.blocks[region.start]) == block[..n]
      ensures n == 0 ==> cache.disk.blocks[region.start] == SetWord(old(cache.logical)[region.start], 0, 0)
      ensures cache.disk.blocks == old(cache.disk.blocks)[region.start := cache.disk.blocks[region.start]]
      ensures cache.logical == old(cache.logical)[region.start := cache.disk.blocks[region.start]]
      ensures cache.disk.history == old(cache.disk.history) + [cache.disk.blocks]
    {
      hide Cache.Valid;
      assert InRegion(region, region.start) && !Newer(cache.dirty, region.start);
      var b := Get(cache, region.start);
      var d := EncodeHeader(cache.buf[b].data);
      Store(cache, b, d);
      Put(cache, b);
      assert cache.users.held == map[];
    }

    /** The header block for the list: its length and the block numbers, one by one. */
    method EncodeHeader(d: Block) returns (h: Block)
      requires block.Length == LOGSIZE && n <= LOGSIZE
      requires forall k :: 0 <= k < n ==> block[k] < U32
      ensures Word(h, 0) == n && Targets(h) == block[..n]
      ensures n == 0 ==> h == SetWord(d, 0, 0)
    {
      h := SetWord(d, 0, n);
      var i := 0;
      while i < n
        invariant 0 <= i <= n && Word(h, 0) == n && (n == 0 ==> h == SetWord(d, 0, 0))
        invariant forall k :: 0 <= k < i ==> Word(h, 1 + k) == block[k]
      {
        h := SetWord(h, 1 + i, block[i]);
        i := i + 1;
      }
    }

    /** The list of a header block: its length and the block numbers, one by one. */
    method DecodeHeader(h: Block)
      requires block.Length == LOGSIZE && Word(h, 0) <= LOGSIZE
      modifies this`n, block
      ensures n == Word(h, 0) && block[..n] == Targets(h)
    {
      n := Word(h, 0);
      var i := 0;
      while i < n
        invariant 0 <= i <= n
        invariant forall k :: 0 <= k < i ==> block[k] == Word(h, 1 + k)
        modifies block
      {
        block[i] := Word(h, 1 + i);
        i := i + 1;
      }
    }

    /** The list found in the header block becomes that of the transaction. */
    method ReadHead()
      requires cache.Valid() && Resting(cache.users) && cache.users.pinned == map[] && cache.dirty == {}
      requires block.Length == LOGSIZE && block != cache.lru.next && block != cache.lru.prev
      requires |cache.logical| < U32 && WellFormed(region, cache.disk.blocks) && cache.logical == cache.disk.blocks
      modifies cache`users, cache.buf, cache.lru, cache.lru.next, cache.lru.prev, this`n, block
      ensures Base() && cache.users == old(cache.users)
      ensures block[..n] == Targets(cache.disk.blocks[region.start])
    {
      hide Cache.Valid;
      var b := Get(cache, region.start);
      var d := cache.buf[b].data;
      Put(cache, b);
      assert cache.users.held == map[];
      DecodeHeader(d);
    }

    /** The state of install_trans's loop: the first `tail` entries are home. */
    ghost predicate Installing(tail: nat, recovering: bool, d0: seq<Block>, l0: seq<Block>)
      reads this, block, cache, cache.disk, cache.buf, cache.lru, cache.lru.next, cache.lru.prev
    {
      && Base() && Resting(cache.users) && tail <= n
      && Fits(region, d0, block[..n]) && Fits(region, l0, block[..n])
      && (if recovering then cache.users.pinned == map[] else PinnedFrom(cache.users.pinned, block[..n], tail))
      && cache.disk.blocks == Installed(region, d0, block[..n], tail)
      && cache.logical == Installed(region, l0, block[..n], tail)
    }

    method InstallOne(tail: nat, recovering: bool, ghost d0: seq<Block>, ghost l0: seq<Block>)
      requires Installing(tail, recovering, d0, l0) && tail < n
      modifies cache`users, cache`logical, cache`dirty, cache.disk, cache.buf, cache.lru, cache.lru.next, cache.lru.prev
      ensures block[..n] == old(block[..n]) && Installing(tail + 1, recovering, d0, l0)
      ensures cache.dirty == old(cache.dirty) - {block[tail]}
      ensures cache.disk.history == old(cache.disk.history) + [cache.disk.blocks]
    {
      hide Cache.Valid, PinnedFrom;
      ghost var t, u := block[..n], cache.users;
      if !recovering { PinnedCount(u.pinned, t, tail); }
      assert block[tail] == t[tail] && !InRegion(region, t[tail]);
      assert InRegion(region, region.start + tail + 1) && !Newer(cache.dirty, region.start + tail + 1);
      CleanAgrees(cache, region.start + tail + 1);
      InstalledRegion(region, d0, t, tail);
      InstalledRegion(region, l0, t, tail);
      ghost var s := CopyHome(cache, region.start + tail + 1, block[tail], recovering);
      if !recovering { PinnedFromStep(u.pinned, t, tail, s); }
    }

    /** Every logged block goes home, in list order. */
    method InstallTrans(recovering: bool)
      requires Base() && Resting(cache.users)
      requires if recovering then cache.users.pinned == map[] else PinnedFrom(cache.users.pinned, block[..n], 0)
      modifies cache`users, cache`logical, cache`dirty, cache.disk, cache.buf, cache.lru, cache.lru.next, cache.lru.prev
      ensures Base() && Resting(cache.users) && cache.users.pinned == map[]
      ensures block[..n] == old(block[..n]) && Fits(region, old(cache.disk.blocks), block[..n])
      ensures |old(cache.logical)| == |old(cache.disk.blocks)|
      ensures cache.disk.blocks == Installed(region, old(cache.disk.blocks), block[..n], n)
      ensures cache.logical == Installed(region, old(cache.logical), block[..n], n)
      ensures cache.dirty == old(cache.dirty) - Elems(block[..n])
      ensures cache.disk.history ==
              old(cache.disk.history) + InstallTrace(region, old(cache.disk.blocks), block[..n], n)
    {
      hide Cache.Valid;
      ghost var t, d0, l0 := block[..n], cache.disk.blocks, cache.logical;
      ghost var h0 := cache.disk.history;
      var tail := 0;
      while tail < n
        invariant block[..n] == t && Installing(tail, recovering, d0, l0)
        invariant cache.dirty == old(cache.dirty) - Elems(t[..tail])
        invariant cache.disk.history == h0 + InstallTrace(region, d0, t, tail)
      {
        InstallOne(tail, recovering, d0, l0);
        assert t[..tail + 1] == t[..tail] + [t[tail]];
        ElemsAppend(t[..tail], t[tail]);
        tail := tail + 1;
      }
    }

    /** Between transactions and while one is being collected. */
    ghost predicate Valid()
      reads this, block, cache, cache.disk, cache.buf, cache.lru, cache.lru.next, cache.lru.prev
    {
      Base() && PinnedFrom(cache.users.pinned, block[..n], 0) && Word(cache.disk.blocks[region.start], 0) == 0
    }

    /** The first half of commit: the transaction becomes durable with the last write. */
    method LogAndCommit() returns (ghost logging: seq<seq<Block>>)
      requires Valid() && Resting(cache.users)
      modifies cache`users, cache`logical, cache`dirty, cache.disk, cache.buf, cache.lru, cache.lru.next, cache.lru.prev
      ensures Base() && cache.users == old(cache.users) && cache.dirty == old(cache.dirty) <= Elems(block[..n])
      ensures block[..n] == old(block[..n]) && Fits(region, cache.logical, block[..n])
      ensures SameHome(region, old(cache.logical), cache.logical)
      ensures SameHome(region, cache.logical, Installed(region, cache.logical, block[..n], n))
      ensures AllState(region, cache.disk.blocks, cache.logical)
      ensures Targets(cache.disk.blocks[region.start]) == block[..n]
      ensures cache.disk.history == old(cache.disk.history) + logging + [cache.disk.blocks]
      ensures forall j :: 0 <= j < |logging| ==> SameOutsideLog(region, old(cache.disk.blocks), logging[j])
    {
      hide Cache.Valid, LogCopied, PinnedFrom, Installed, AllState, Word;
      RestingDirty(cache);
      PinnedElems(cache.users.pinned, block[..n]);
      logging := WriteLog();
      ghost var d1, l1 := cache.disk.blocks, cache.logical;
      CleanAgreesAll(cache);
      WriteHead();
      HeaderCommits(region, l1, d1, block[..n], cache.disk.blocks[region.start]);
    }

    /** The second half of commit: the blocks go home and the header becomes empty. */
    method InstallAndErase()
      requires Base() && Resting(cache.users) && PinnedFrom(cache.users.pinned, block[..n], 0)
      requires cache.dirty <= Elems(block[..n])
      requires Fits(region, cache.logical, block[..n])
      requires SameHome(region, cache.logical, Installed(region, cache.logical, block[..n], n))
      requires AllState(region, cache.disk.blocks, cache.logical)
      requires Targets(cache.disk.blocks[region.start]) == block[..n]
      modifies cache`users, cache`logical, cache`dirty, cache.disk, cache.buf, cache.lru, cache.lru.next,
          cache.lru.prev, this`n
      ensures Valid() && Resting(cache.users) && n == 0 && cache.dirty == {}
      ensures SameHome(region, old(cache.logical), cache.logical)
      ensures AllState(region, cache.disk.blocks, cache.logical) && SameHome(region, cache.disk.blocks, cache.logical)
      ensures cache.disk.history == old(cache.disk.history)
                + InstallTrace(region, old(cache.disk.blocks), old(block[..n]), old(n)) + [cache.disk.blocks]
    {
      hide Cache.Valid;
      ghost var d, l, t := cache.disk.blocks, cache.logical, block[..n];
      InstallTrans(false);
      Erase(d, l, t);
      AllStateHome(region, cache.disk.blocks, l, cache.logical);
    }

    /** The body of commit for a non-empty transaction. */
    method WriteTransaction()
      requires Valid() && Resting(cache.users) && n > 0
      modifies cache`users, cache`logical, cache`dirty, cache.disk, cache.buf, cache.lru, cache.lru.next,
          cache.lru.prev, this`n
      ensures Valid() && Resting(cache.users) && n == 0 && cache.dirty == {}
      ensures Committed(region, old(cache.disk.blocks), old(cache.logical), cache.logical,
                        cache.disk.blocks, old(cache.disk.history), cache.disk.history)
    {
      hide Cache.Valid;
      ghost var h0, d0, t := cache.disk.history, cache.disk.blocks, block[..n];
      ghost var logging := LogAndCommit();
      ghost var d2, l2 := cache.disk.blocks, cache.logical;
      InstallAndErase();
      HistoryTail(h0, logging, [d2], InstallTrace(region, d2, t, |t|), [cache.disk.blocks]);
      AllStateHome(region, d2, l2, cache.logical);
      CommitStates(region, d0, cache.logical, logging, d2, cache.disk.blocks);
    }

    /** An empty list, in memory and on disk. */
    method Erase(ghost committed: seq<Block>, ghost after: seq<Block>, ghost t: seq<nat>)
      requires Base() && Resting(cache.users) && cache.users.pinned == map[]
      requires AllState(region, committed, after) && Targets(committed[region.start]) == t
      requires cache.disk.blocks == Installed(region, committed, t, |t|)
      modifies cache`users, cache`logical, cache`dirty, cache.disk, cache.buf, cache.lru, cache.lru.next,
          cache.lru.prev, this`n
      ensures Valid() && cache.users == old(cache.users) && n == 0 && cache.dirty == old(cache.dirty)
      ensures SameHome(region, old(cache.logical), cache.logical)
      ensures AllState(region, cache.disk.blocks, after) && SameHome(region, cache.disk.blocks, after)
      ensures cache.disk.history == old(cache.disk.history) + [cache.disk.blocks]
    {
      hide Cache.Valid, Installed, Recovered;
      n := 0;
      WriteHead();
      ErasedKeepsAll(region, committed, after, cache.disk.blocks);
    }

    /** Write the log, the header, the home locations and the empty header.
        Every disk state on the way recovers to the old home blocks or to the
        new ones, and to the new ones from the header write on. */
    method Commit()
      requires Valid() && Resting(cache.users)
      modifies cache`users, cache`logical, cache`dirty, cache.disk, cache.buf, cache.lru, cache.lru.next,
          cache.lru.prev, this`n
      ensures Valid() && Resting(cache.users) && n == 0 && cache.dirty == {}
      ensures Committed(region, old(cache.disk.blocks), old(cache.logical), cache.logical,
                        cache.disk.blocks, old(cache.disk.history), cache.disk.history)
    {
      hide Cache.Valid;
      if n > 0 {
        WriteTransaction();
      } else {
        RestingDirty(cache);
        CleanAgreesAll(cache);
        assert CommitTrace(region, cache.disk.blocks, cache.logical, cache.disk.history[|cache.disk.history|..], 0);
      }
    }

    /** read_head, install_trans(1), an empty header. */
    method RecoverFromLog()
      requires cache.Valid() && cache.users == Users(multiset{}, map[], map[]) && cache.dirty == {}
      requires block.Length == LOGSIZE && block != cache.lru.next && block != cache.lru.prev
      requires |cache.logical| < U32 && WellFormed(region, cache.disk.blocks) && cache.logical == cache.disk.blocks
      modifies cache`users, cache`logical, cache`dirty, cache.disk, cache.buf, cache.lru, cache.lru.next, cache.lru.prev
      modifies this`n, block
      ensures Valid() && cache.users == old(cache.users) && cache.dirty == {} && n == 0
      ensures cache.logical == cache.disk.blocks == Recovered(region, old(cache.disk.blocks))
      ensures RecoveryTrace(region, old(cache.disk.blocks), old(cache.disk.history), cache.disk.history)
    {
      hide Cache.Valid, RecoveryTrace, InstallTrace, Word, SetWord, HomeBlocks;
      ghost var d := cache.disk.blocks;
      ReadHead();
      ghost var t := block[..n];
      InstallTrans(true);
      InstalledRegion(region, d, t, n);
      assert InRegion(region, region.start);
      n := 0;
      NoHomeBlocks(region, block[..n], |cache.logical|);
      WriteHead();
      RecoveryStates(region, d, old(cache.disk.history));
    }

    /** log_write's absorption scan. */
    method FindEntry(b: nat) returns (k: nat)
      requires block.Length == LOGSIZE && n <= LOGSIZE
      ensures k <= n && b !in block[..k] && (k < n ==> block[k] == b)
    {
      k := 0;
      while k < n && block[k] != b
        invariant k <= n && b !in block[..k]
      {
        k := k + 1;
      }
    }

    /** log_write for a block that is not yet in the transaction. */
    method AppendEntry(i: nat)
      requires Valid() && i in cache.users.held && !InRegion(region, cache.users.held[i])
      requires cache.users.held[i] < |cache.logical| && cache.users.held[i] !in block[..n]
      requires n < region.size - 1
      modifies block, this`n, cache`users, cache.buf
      ensures Valid() &&
                cache.users == old(cache.users).(pinned := old(cache.users.pinned)[i := old(cache.users.held)[i]])
      ensures block[..n] == old(block[..n]) + [old(cache.users.held)[i]]
    {
      hide Cache.Valid, HomeBlocks, PinnedFrom, Word, Newer;
      HeldFacts(cache, i);
      ghost var t, u := block[..n], cache.users;
      NotPinned(u.pinned, t, u.held[i]);
      HomeBlocksMore(region, t, u.held[i], |cache.logical|);
      block[n] := cache.buf[i].blockno;
      Pin(cache, i);
      PinnedMore(u.pinned, t, i, u.held[i]);
      n := n + 1;
      assert block[..n] == t + [u.held[i]];
    }

    /** Record the block in the transaction, once, and pin its buffer. */
    method LogWrite(i: nat)
      requires Valid() && i in cache.users.held && !InRegion(region, cache.users.held[i])
      requires cache.users.held[i] < |cache.logical|
      requires n < LOGSIZE && n < region.size - 1 && outstanding >= 1
      modifies block, this`n, cache`users, cache.buf
      ensures Valid()
      ensures var b := old(cache.users.held)[i];
              if b in old(block[..n]) then cache.users == old(cache.users) && block[..n] == old(block[..n])
              else && cache.users == old(cache.users).(pinned := old(cache.users.pinned)[i := b])
                   && block[..n] == old(block[..n]) + [b]
      ensures old(cache.users.held)[i] in cache.users.pinned.Values
    {
      hide Cache.Valid;
      HeldFacts(cache, i);
      var k := FindEntry(cache.buf[i].blockno);
      if k == n {
        AppendEntry(i);
      } else {
        block[k] := cache.buf[i].blockno;
        assert block[..n] == old(block[..n]);
        assert block[..n][0..][k] == old(cache.users.held)[i];
      }
    }

    /** One round of begin_op's loop: the caller is admitted unless a commit is
        running or the reservations of the operations in progress, at
        MAXOPBLOCKS each, might overflow the log; otherwise it sleeps. */
    method BeginOp() returns (admitted: bool)
      modifies this`outstanding
      ensures admitted <==> !committing && n + (old(outstanding) + 1) * MAXOPBLOCKS <= LOGSIZE
      ensures outstanding == if admitted then old(outstanding) + 1 else old(outstanding)
    {
      if committing {
        admitted := false;
      } else if n + (outstanding + 1) * MAXOPBLOCKS > LOGSIZE {
        admitted := false;
      } else {
        outstanding := outstanding + 1;
        admitted := true;
      }
    }

    /** The last operation to finish commits for all. */
    method EndOp()
      requires Valid() && Resting(cache.users) && outstanding >= 1 && !committing
      modifies cache`users, cache`logical, cache`dirty, cache.disk, cache.buf, cache.lru, cache.lru.next, cache.lru.prev
      modifies this`n, this`outstanding, this`committing
      ensures Valid() && Resting(cache.users) && !committing && outstanding == old(outstanding) - 1
      ensures outstanding > 0 ==>
                n == old(n) && cache.users == old(cache.users) && cache.logical == old(cache.logical)
                && cache.disk.history == old(cache.disk.history)
      ensures outstanding == 0 ==>
                && n == 0
                && Committed(region, old(cache.disk.blocks), old(cache.logical), cache.logical,
                             cache.disk.blocks, old(cache.disk.history), cache.disk.history)
    {
      hide Cache.Valid;
      outstanding := outstanding - 1;
      if outstanding == 0 {
        committing := true;
        Commit();
        committing := false;
      }
    }

    /** bread, modify, log_write, brelse: the documented use of log_write. */
    method UpdateBlock(b: nat, d: Block)
      requires Valid() && Resting(cache.users)
      requires b < |cache.logical| && !InRegion(region, b)
      requires n < region.size - 1 && outstanding >= 1
      modifies cache`users, cache`logical, cache`dirty, cache.buf, cache.lru, cache.lru.next, cache.lru.prev, this`n,
          block
      ensures Valid() && Resting(cache.users)
      ensures cache.logical == old(cache.logical)[b := d]
      ensures block[..n] == if b in old(block[..n]) then old(block[..n]) else old(block[..n]) + [b]
    {
      hide Cache.Valid, HomeBlocks, PinnedFrom, Word;
      PinnedCount(cache.users.pinned, block[..n], 0);
      var i := Get(cache, b);
      Change(cache, i, d);
      LogWrite(i);
      Put(cache, i);
    }

    /** A whole file-system operation on an idle log: its updates reach the
        home blocks together or, after a crash, not at all.  log_write gives up
        when the list has region.size - 1 blocks, also for a block in the list. */
    method Transact(updates: seq<(nat, Block)>)
      requires Valid() && Resting(cache.users) && n == outstanding == 0 && !committing
      requires forall k: nat :: k < |updates| ==> |UpdatedBlocks(updates, k)| < region.size - 1
      requires forall k :: 0 <= k < |updates| ==> updates[k].0 < |cache.logical| && !InRegion(region, updates[k].0)
      modifies cache`users, cache`logical, cache`dirty, cache.disk, cache.buf, cache.lru, cache.lru.next, cache.lru.prev
      modifies block, this`n, this`outstanding, this`committing
      ensures Valid() && Resting(cache.users) && n == outstanding == 0 && !committing
      ensures Committed(region, old(cache.disk.blocks), Updated(old(cache.logical), updates, |updates|), cache.logical,
                        cache.disk.blocks, old(cache.disk.history), cache.disk.history)
    {
      hide Cache.Valid, Committed, PinnedFrom, HomeBlocks, Word, Listed, UpdatedBlocks;
      var admitted := BeginOp();
      assert admitted;
      ghost var d0, l0, h0 := cache.disk.blocks, cache.logical, cache.disk.history;
      NoneListed(block[..n], updates);
      var k := 0;
      while k < |updates|
        invariant Valid() && Resting(cache.users) && outstanding == 1 && !committing
        invariant 0 <= k <= |updates| && Listed(block[..n], updates, k)
        invariant cache.logical == Updated(l0, updates, k)
        invariant cache.disk.blocks == d0 && cache.disk.history == h0
      {
        ghost var list := block[..n];
        ListBound(list, updates, k);
        UpdateBlock(updates[k].0, updates[k].1);
        ListMore(list, block[..n], updates, k);
        k := k + 1;
      }
      EndOp();
    }
  }
}
