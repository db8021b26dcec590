/** A file write through the log: kernel/file.c's transaction of kernel/fs.c's writei,
    committed by kernel/log.c.  Wherever the machine stops, and however often it stops
    again while it recovers, the disk shows the files as before the write or as after it. */
module DurableFile {
  import opened Words
  import opened BufferCache
  import opened LogSpec
  import opened WriteAheadLog
  import opened FsLayout
  import opened FileContent
  import opened FileSystem
  import opened OpenFile
  import opened Wrappers
  import GroupCommit

  /** Inode blocks and data blocks of a disk show these inodes with these contents. */
  ghost predicate Shows(sb: Super, disk: seq<Block>, blocks: seq<Block>, inodes: Inodes)
  {
    forall i: nat ::
        i in inodes ==> SyncedAt(sb, disk, inodes, i) && Content(disk, inodes[i]) == Content(blocks, inodes[i])
  }

  /** The log lies before the inodes. */
  predicate LogFirst(r: Region, sb: Super)
  {
    r.start + r.size <= sb.inodestart
  }

  lemma SameFile(r: Region, sb: Super, disk: seq<Block>, blocks: seq<Block>, inodes: Inodes, owner: map<nat, Slot>,
                 i: nat)
    requires FsOk(sb, blocks, inodes, owner, {}) && LogFirst(r, sb) && SameHome(r, disk, blocks)
    requires i in inodes && NoHoles(blocks, inodes[i])
    ensures Content(disk, inodes[i]) == Content(blocks, inodes[i])
  {
    hide FsOk, Word;
    var ino := inodes[i];
    assert |ino.addrs| == NDIRECT + 1 by { IndirectInRange(sb, blocks, inodes, owner, i); }
    if ino.addrs[NDIRECT] != 0 { SlotInRange(sb, blocks, inodes, owner, {}, i, NDIRECT); }
    forall p: nat | p < ino.size ensures ByteAt(disk, ino, p) == ByteAt(blocks, ino, p) {
      assert BlockAt(blocks, ino, p) != 0;
      SlotInRange(sb, blocks, inodes, owner, {}, i, FileSlot(p / BSIZE));
      assert BlockAt(disk, ino, p) == BlockAt(blocks, ino, p);
    }
  }

  lemma HomeShows(r: Region, sb: Super, disk: seq<Block>, blocks: seq<Block>, inodes: Inodes, owner: map<nat, Slot>)
    requires FsOk(sb, blocks, inodes, owner, {}) && LogFirst(r, sb) && SameHome(r, disk, blocks)
    requires Synced(sb, blocks, inodes) && AllNoHoles(blocks, inodes)
    ensures Shows(sb, disk, blocks, inodes)
  {
    hide FsOk, ReadInode, Content, NoHoles;
    forall i: nat | i in inodes
      ensures SyncedAt(sb, disk, inodes, i) && Content(disk, inodes[i]) == Content(blocks, inodes[i])
    {
      assert SyncedAt(sb, blocks, inodes, i) && NoHoles(blocks, inodes[i]);
      SameFile(r, sb, disk, blocks, inodes, owner, i);
    }
  }

  /** Updates outside the log keep two disks alike outside the log. */
  lemma {:induction false} UpdatedAlike(r: Region, a: seq<Block>, b: seq<Block>, updates: seq<(nat, Block)>, k: nat)
    requires SameHome(r, a, b) && k <= |updates|
    ensures SameHome(r, Updated(a, updates, k), Updated(b, updates, k))
  {
    if k > 0 { UpdatedAlike(r, a, b, updates, k - 1); }
  }

  /** Few blocks, and none of them in the log. */
  lemma TraceFits(r: Region, sb: Super, b0: seq<Block>, b1: seq<Block>, trace: seq<(nat, Block)>, logged: set<nat>)
    requires Logs(sb, b0, [], {}, b1, trace, logged) && LogFirst(r, sb)
    ensures b1 == Updated(b0, trace, |trace|)
    ensures forall k :: 0 <= k < |trace| ==> trace[k].0 < |b0| && !InRegion(r, trace[k].0)
    ensures forall k: nat :: k <= |trace| ==> |UpdatedBlocks(trace, k)| <= |logged|
  {
    assert trace[0..] == trace;
    forall k: nat | k <= |trace| ensures |UpdatedBlocks(trace, k)| <= |logged| {
      Counting.SubsetSize(UpdatedBlocks(trace, k), logged);
    }
  }

  /** Between operations the disk has the logical contents. */
  lemma IdleAgrees(log: Log)
    requires log.Valid() && Resting(log.cache.users) && log.n == 0
    ensures SameHome(log.region, log.cache.disk.blocks, log.cache.logical)
  {
    hide Cache.Valid;
    RestingDirty(log.cache);
    assert log.block[..log.n] == [];
    CleanAgreesAll(log.cache);
  }

  /** Whatever recovery reaches from disk state d, through any number of further crashes, shows
      the files as in (b0, n0) or as in (b1, n1). */
  ghost predicate Atomic(r: Region, sb: Super, d: seq<Block>, b0: seq<Block>, n0: Inodes, b1: seq<Block>, n1: Inodes)
  {
    forall disks :: CrashChain(r, disks) && disks[0] == d ==> ShowsEither(r, sb, disks[|disks| - 1], b0, n0, b1, n1)
  }

  ghost predicate ShowsEither(r: Region, sb: Super, last: seq<Block>, b0: seq<Block>, n0: Inodes, b1: seq<Block>,
                              n1: Inodes)
  {
    WellFormed(r, last) && (Shows(sb, Recovered(r, last), b0, n0) || Shows(sb, Recovered(r, last), b1, n1))
  }

  /** The two sides of a commit, as the disk shows them. */
  ghost predicate Sides(r: Region, sb: Super, before: seq<Block>, after: seq<Block>,
                        b0: seq<Block>, n0: Inodes, o0: map<nat, Slot>, b1: seq<Block>, n1: Inodes, o1: map<nat, Slot>)
  {
    && LogFirst(r, sb) && SameHome(r, before, b0) && SameHome(r, after, b1)
    && FsOk(sb, b0, n0, o0, {}) && Synced(sb, b0, n0) && AllNoHoles(b0, n0)
    && FsOk(sb, b1, n1, o1, {}) && Synced(sb, b1, n1) && AllNoHoles(b1, n1)
  }

  lemma SameHomeSteps(r: Region, a: seq<Block>, b: seq<Block>, c: seq<Block>)
    requires SameHome(r, a, b) && SameHome(r, b, c)
    ensures SameHome(r, a, c)
  {
  }

  lemma CommitIsAtomic(r: Region, sb: Super, before: seq<Block>, after: seq<Block>, states: seq<seq<Block>>,
                       c: nat, j: nat,
                       b0: seq<Block>, n0: Inodes, o0: map<nat, Slot>, b1: seq<Block>, n1: Inodes, o1: map<nat, Slot>)
    requires CommitTrace(r, before, after, states, c) && j < |states|
    requires Sides(r, sb, before, after, b0, n0, o0, b1, n1, o1)
    ensures Atomic(r, sb, states[j], b0, n0, b1, n1)
  {
    hide FsOk, Synced, AllNoHoles, Shows, Recovered, WellFormed;
    forall disks | CrashChain(r, disks) && disks[0] == states[j]
      ensures ShowsEither(r, sb, disks[|disks| - 1], b0, n0, b1, n1)
    {
      CommitSurvivesCrashes(r, before, after, states, c, j, disks);
      var found := Recovered(r, disks[|disks| - 1]);
      if j < c {
        SameHomeSteps(r, found, before, b0);
        HomeShows(r, sb, found, b0, n0, o0);
      } else {
        SameHomeSteps(r, found, after, b1);
        HomeShows(r, sb, found, b1, n1, o1);
      }
    }
  }

  /** One transaction of filewrite on an idle log, with a source that can be read. */
  method WriteDurably(f: OpenFile, log: Log, src: seq<byte>) returns (r: WriteResult)
    requires FsOk(f.fs.sb, f.fs.blocks, f.fs.inodes, f.fs.owner, {}) && AllNoHoles(f.fs.blocks, f.fs.inodes)
    requires Synced(f.fs.sb, f.fs.blocks, f.fs.inodes) && f.ip in f.fs.inodes && |src| <= MAXCHUNK
    requires log.Valid() && Resting(log.cache.users) && log.n == log.outstanding == 0 && !log.committing
    requires LogFirst(log.region, f.fs.sb) && SameHome(log.region, log.cache.logical, f.fs.blocks)
    requires log.region.size > MAXOPBLOCKS + 1
    modifies f, f.fs
    modifies log.cache`users, log.cache`logical, log.cache`dirty, log.cache.disk, log.cache.buf
    modifies log.cache.lru, log.cache.lru.next, log.cache.lru.prev
    modifies log.block, log`n, log`outstanding, log`committing
    ensures FsOk(f.fs.sb, f.fs.blocks, f.fs.inodes, f.fs.owner, {})
    ensures r.Rejected? <==> old(f.off) > old(f.fs.inodes)[f.ip].size || old(f.off) + |src| > MAXSIZE
    ensures r.Rejected? ==> f.off == old(f.off) && f.fs.blocks == old(f.fs.blocks) && f.fs.inodes == old(f.fs.inodes)
    ensures r.OutOfBlocks? ==> forall x: nat :: x < f.fs.sb.size ==> BitAt(f.fs.sb, f.fs.blocks, x)
    ensures !r.Written? ==>
              && unchanged(log, log.block, log.cache, log.cache.disk, log.cache.buf)
              && unchanged(log.cache.lru, log.cache.lru.next, log.cache.lru.prev)
    ensures r.Written? ==> r.tot == |src| && f.off == old(f.off) + |src|
    ensures r.Written? ==>
              && log.Valid() && Resting(log.cache.users) && log.n == log.outstanding == 0 && !log.committing
              && Synced(f.fs.sb, f.fs.blocks, f.fs.inodes)
              && Rewritten(old(f.fs.blocks), old(f.fs.inodes), f.fs.blocks, f.fs.inodes, f.ip, old(f.off), src, |src|)
              && SameHome(log.region, log.cache.logical, f.fs.blocks)
              && SameHome(log.region, log.cache.disk.blocks, f.fs.blocks)
    ensures r.Written? ==>
              && old(log.cache.disk.history) <= log.cache.disk.history
              && forall j :: |old(log.cache.disk.history)| <= j < |log.cache.disk.history| ==>
                   Atomic(log.region, f.fs.sb, log.cache.disk.history[j],
                          old(f.fs.blocks), old(f.fs.inodes), f.fs.blocks, f.fs.inodes)
  {
    hide FsOk, Synced, AllNoHoles, Rewritten, Cache.Valid, Logs, Updated, UpdatedBlocks, Atomic, Word;
    hide WholeChunks, PinnedFrom, HomeBlocks, BitAt;
    ghost var b0, n0, o0, l0 := f.fs.blocks, f.fs.inodes, f.fs.owner, log.cache.logical;
    ghost var d0, h0 := log.cache.disk.blocks, log.cache.disk.history;
    IdleAgrees(log);
    SameHomeSteps(log.region, d0, l0, b0);
    r := f.WriteTransaction(src, |src|);
    if !r.Written? { return; }
    TotBounds(old(f.off), |src|, |src|, r.tot);
    assert src[..|src|] == src;
    TraceFits(log.region, f.fs.sb, b0, f.fs.blocks, f.fs.trace, f.fs.logged);
    UpdatedAlike(log.region, l0, b0, f.fs.trace, |f.fs.trace|);
    log.Transact(f.fs.trace);
    SettledAtomic(log, f.fs, d0, Updated(l0, f.fs.trace, |f.fs.trace|), h0, b0, n0, o0, f.ip, old(f.off), src);
  }

  lemma SettledAtomic(log: Log, fs: FileSystem, d0: seq<Block>, l1: seq<Block>, h0: seq<seq<Block>>,
                      b0: seq<Block>, n0: Inodes, o0: map<nat, Slot>, ip: nat, off: nat, src: seq<byte>)
    requires Committed(log.region, d0, l1, log.cache.logical, log.cache.disk.blocks, h0, log.cache.disk.history)
    requires LogFirst(log.region, fs.sb) && SameHome(log.region, d0, b0) && SameHome(log.region, l1, fs.blocks)
    requires FsOk(fs.sb, b0, n0, o0, {}) && Synced(fs.sb, b0, n0) && AllNoHoles(b0, n0)
    requires FsOk(fs.sb, fs.blocks, fs.inodes, fs.owner, {}) && Synced(fs.sb, fs.blocks, fs.inodes)
    requires Rewritten(b0, n0, fs.blocks, fs.inodes, ip, off, src, |src|)
    ensures SameHome(log.region, log.cache.logical, fs.blocks) && SameHome(log.region, log.cache.disk.blocks, fs.blocks)
    ensures h0 <= log.cache.disk.history
    ensures forall j :: |h0| <= j < |log.cache.disk.history| ==>
              Atomic(log.region, fs.sb, log.cache.disk.history[j], b0, n0, fs.blocks, fs.inodes)
  {
    hide FsOk, Synced, AllNoHoles, Content, Overlay, CommitTrace, Atomic;
    var r, after, history := log.region, log.cache.logical, log.cache.disk.history;
    SameHomeSteps(r, after, l1, fs.blocks);
    SameHomeSteps(r, log.cache.disk.blocks, after, fs.blocks);
    var c: nat :| CommitTrace(r, d0, after, history[|h0|..], c);
    forall j | |h0| <= j < |history| ensures Atomic(r, fs.sb, history[j], b0, n0, fs.blocks, fs.inodes) {
      CommitIsAtomic(r, fs.sb, d0, after, history[|h0|..], c, j - |h0|, b0, n0, o0, fs.blocks, fs.inodes, fs.owner);
    }
  }

  // ---- A write of any length ----------------------------------------------

  /** Disk d holds the files of (b0, n0), but for file ip, where the first k bytes of src
      are written at off. */
  ghost predicate ShowsWrite(sb: Super, d: seq<Block>, b0: seq<Block>, n0: Inodes, ip: nat, off: nat, src: seq<byte>,
                             n: Inodes, k: nat)
  {
    && k <= |src| && n.Keys == n0.Keys && ip in n0 && off <= n0[ip].size
    && forall i: nat :: i in n0 ==>
         && SyncedAt(sb, d, n, i)
         && Content(d, n[i]) ==
              if i == ip then Overlay(Content(b0, n0[i]), off, src[..k]) else Content(b0, n0[i])
  }

  /** ... for a k that is a number of whole chunks, or all of src. */
  ghost predicate ShowsChunks(r: Region, sb: Super, last: seq<Block>, b0: seq<Block>, n0: Inodes, ip: nat, off: nat,
                              src: seq<byte>)
  {
    && WellFormed(r, last)
    && exists n: Inodes, k: nat ::
         (k % MAXCHUNK == 0 || k == |src|) && ShowsWrite(sb, Recovered(r, last), b0, n0, ip, off, src, n, k)
  }

  /** Whatever recovery reaches from disk state d shows a number of whole chunks of the write. */
  ghost predicate InChunks(r: Region, sb: Super, d: seq<Block>, b0: seq<Block>, n0: Inodes, ip: nat, off: nat,
                           src: seq<byte>)
  {
    forall disks :: CrashChain(r, disks) && disks[0] == d ==>
      ShowsChunks(r, sb, disks[|disks| - 1], b0, n0, ip, off, src)
  }

  lemma ShowsOne(sb: Super, d: seq<Block>, b0: seq<Block>, n0: Inodes, b: seq<Block>, n: Inodes, ip: nat, off: nat,
                 src: seq<byte>, k: nat)
    requires Shows(sb, d, b, n) && k <= |src|
    requires Rewritten(b0, n0, b, n, ip, off, src[..k], k)
    ensures ShowsWrite(sb, d, b0, n0, ip, off, src, n, k)
  {
    hide SyncedAt, Content, Overlay, AllNoHoles;
  }

  lemma AtomicChunk(r: Region, sb: Super, d: seq<Block>, b0: seq<Block>, n0: Inodes, b1: seq<Block>, n1: Inodes,
                    b2: seq<Block>, n2: Inodes, ip: nat, off: nat, src: seq<byte>, k: nat, m: nat)
    requires Atomic(r, sb, d, b1, n1, b2, n2) && k <= |src| && m <= |src|
    requires Rewritten(b0, n0, b1, n1, ip, off, src[..k], k) && Rewritten(b0, n0, b2, n2, ip, off, src[..m], m)
    requires k % MAXCHUNK == 0 && (m % MAXCHUNK == 0 || m == |src|)
    ensures InChunks(r, sb, d, b0, n0, ip, off, src)
  {
    hide Shows, ShowsWrite, Rewritten, Recovered, WellFormed;
    forall disks | CrashChain(r, disks) && disks[0] == d
      ensures ShowsChunks(r, sb, disks[|disks| - 1], b0, n0, ip, off, src)
    {
      var last := disks[|disks| - 1];
      assert ShowsEither(r, sb, last, b1, n1, b2, n2);
      var found := Recovered(r, last);
      if Shows(sb, found, b1, n1) {
        ShowsOne(sb, found, b0, n0, b1, n1, ip, off, src, k);
        assert ShowsWrite(sb, found, b0, n0, ip, off, src, n1, k);
      } else {
        ShowsOne(sb, found, b0, n0, b2, n2, ip, off, src, m);
        assert ShowsWrite(sb, found, b0, n0, ip, off, src, n2, m);
      }
    }
  }

  /** The file system is sound and written back, and the idle log shows its blocks. */
  ghost predicate Settled(f: OpenFile, log: Log)
    reads f, f.fs, log, log.block, log.cache, log.cache.disk, log.cache.buf
    reads log.cache.lru, log.cache.lru.next, log.cache.lru.prev
  {
    && FsOk(f.fs.sb, f.fs.blocks, f.fs.inodes, f.fs.owner, {}) && AllNoHoles(f.fs.blocks, f.fs.inodes)
    && Synced(f.fs.sb, f.fs.blocks, f.fs.inodes) && f.ip in f.fs.inodes
    && log.Valid() && Resting(log.cache.users) && log.n == log.outstanding == 0 && !log.committing
    && LogFirst(log.region, f.fs.sb) && SameHome(log.region, log.cache.logical, f.fs.blocks)
    && log.region.size > MAXOPBLOCKS + 1
  }

  /** filewrite as a whole: wherever the machine stops, the disk shows a number of whole chunks. */
  method FilewriteDurably(f: OpenFile, log: Log, src: seq<byte>) returns (ret: Option<int>, ghost done: nat)
    requires Settled(f, log) && |src| < 0x8000_0000
    modifies f, f.fs
    modifies log.cache`users, log.cache`logical, log.cache`dirty, log.cache.disk, log.cache.buf
    modifies log.cache.lru, log.cache.lru.next, log.cache.lru.prev
    modifies log.block, log`n, log`outstanding, log`committing
    ensures FsOk(f.fs.sb, f.fs.blocks, f.fs.inodes, f.fs.owner, {})
    ensures ret.None? ==> forall x: nat :: x < f.fs.sb.size ==> BitAt(f.fs.sb, f.fs.blocks, x)
    ensures ret.Some? ==>
              && Settled(f, log) && (ret.value == |src| || ret.value == -1)
              && (ret.value == |src| <==>
                    |src| == 0 || (old(f.off) <= old(f.fs.inodes)[f.ip].size && old(f.off) + |src| <= MAXSIZE))
              && done <= |src| && (ret.value == |src| ==> done == |src|) && f.off == old(f.off) + done
              && Outcome(old(f.fs.blocks), old(f.fs.inodes), f.fs.blocks, f.fs.inodes, f.ip, old(f.off),
                         src[..done], done)
    ensures old(log.cache.disk.history) <= log.cache.disk.history
    ensures forall j :: |old(log.cache.disk.history)| <= j < |log.cache.disk.history| ==>
              InChunks(log.region, f.fs.sb, log.cache.disk.history[j],
                       old(f.fs.blocks), old(f.fs.inodes), f.ip, old(f.off), src)
  {
    hide FsOk, Synced, AllNoHoles, Rewritten, Outcome, Cache.Valid, Log.Valid, Atomic;
    hide InChunks, BitAt, SameHome, Resting;
    ghost var b0, n0, off0, h0 := f.fs.blocks, f.fs.inodes, f.off, log.cache.disk.history;
    OutcomeNone(b0, n0, f.ip, f.off, src);
    var i := 0;
    while i < |src|
      invariant i <= |src| && (i % MAXCHUNK == 0 || i == |src|) && f.off == off0 + i
      invariant Settled(f, log)
      invariant Outcome(b0, n0, f.fs.blocks, f.fs.inodes, f.ip, off0, src[..i], i)
      invariant i > 0 ==> off0 <= n0[f.ip].size && off0 + i <= MAXSIZE
      invariant h0 <= log.cache.disk.history
      invariant forall j :: |h0| <= j < |log.cache.disk.history| ==>
                  InChunks(log.region, f.fs.sb, log.cache.disk.history[j], b0, n0, f.ip, off0, src)
    {
      var m := if |src| - i > MAXCHUNK then MAXCHUNK else |src| - i;
      ghost var b1, n1, h1 := f.fs.blocks, f.fs.inodes, log.cache.disk.history;
      OutcomeFacts(b0, n0, b1, n1, f.ip, off0, src[..i], i);
      var r := WriteDurably(f, log, src[i..i + m]);
      if r.OutOfBlocks? { return None, i; }
      if r.Rejected? { return Some(-1), i; }
      OutcomeMore(b0, n0, b1, n1, f.fs.blocks, f.fs.inodes, f.ip, off0, src, i, src[i..i + m], m);
      ChunkHistory(log.region, f.fs.sb, h0, h1, log.cache.disk.history, b0, n0, b1, n1, f.fs.blocks, f.fs.inodes,
                   f.ip, off0, src, i, i + m);
      i := i + m;
    }
    return Some(|src|), i;
  }

  lemma ChunkHistory(r: Region, sb: Super, h0: seq<seq<Block>>, h1: seq<seq<Block>>, h2: seq<seq<Block>>,
                     b0: seq<Block>, n0: Inodes, b1: seq<Block>, n1: Inodes, b2: seq<Block>, n2: Inodes,
                     ip: nat, off: nat, src: seq<byte>, k: nat, m: nat)
    requires h0 <= h1 <= h2 && ip in n0 && off <= n0[ip].size && k <= |src| && m <= |src|
    requires forall j :: |h0| <= j < |h1| ==> InChunks(r, sb, h1[j], b0, n0, ip, off, src)
    requires forall j :: |h1| <= j < |h2| ==> Atomic(r, sb, h2[j], b1, n1, b2, n2)
    requires Outcome(b0, n0, b1, n1, ip, off, src[..k], k) && Outcome(b0, n0, b2, n2, ip, off, src[..m], m)
    requires k % MAXCHUNK == 0 && (m % MAXCHUNK == 0 || m == |src|)
    ensures h0 <= h2 && forall j :: |h0| <= j < |h2| ==> InChunks(r, sb, h2[j], b0, n0, ip, off, src)
  {
    hide Rewritten, Atomic, InChunks;
    forall j | |h0| <= j < |h2| ensures InChunks(r, sb, h2[j], b0, n0, ip, off, src) {
      if j >= |h1| { AtomicChunk(r, sb, h2[j], b0, n0, b1, n1, b2, n2, ip, off, src, k, m); }
    }
  }

  /** On a disk as mkfs makes it, with FSSIZE blocks and so one bitmap block, the chunks of
      filewrite keep log_write from panicking in every interleaving. */
  lemma FilewriteNeverPanics(r: Region, init: seq<Block>)
    requires GroupCommit.Geometry(r, init) && Word(init[r.start], 0) == 0 && r.size == LOGSIZE
    requires |init| >= r.start + r.size + LOGSIZE
    ensures GroupCommit.PanicFree(r, ONEBITMAP, init)
    ensures forall off: nat, n: nat :: n <= MAXCHUNK ==> DataBlocks(off, n) + 3 <= ONEBITMAP
  {
    GroupCommit.PanicFreeIff(r, ONEBITMAP, init);
    forall off: nat, n: nat | n <= MAXCHUNK ensures DataBlocks(off, n) + 3 <= ONEBITMAP {
      ChunkFitsReservation(off, n);
    }
  }
}
