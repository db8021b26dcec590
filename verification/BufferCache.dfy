/** The buffer cache of kernel/bio.c over a one-disk driver.

    `Disk` is the medium: a block write is one atomic step and every state the
    medium passes through is recorded, so that crash properties can range over
    all of them.  `Cache` keeps NBUF buffers in an array, ordered by recency of
    use in a linked list of their indices.

    The cache is specified by a logical disk: the contents a caller of bread
    is entitled to see.  `logical` changes only when a holder of a locked
    buffer modifies its data.
 */
module BufferCache {
  import opened Words
  import opened Counting
  import opened RecencyList

  const BSIZE: nat := 1024
  const NBUF: nat := 30
  const ROOTDEV: nat := 1

  type Block = d: seq<byte> | |d| == BSIZE witness Zeroes(BSIZE)

  class Disk {
    var blocks: seq<Block>
    ghost var history: seq<seq<Block>>

    constructor (image: seq<Block>)
      ensures blocks == image && history == [image]
    {
      blocks := image;
      history := [image];
    }

    ghost predicate Valid()
      reads this
    {
      history != [] && history[|history| - 1] == blocks
    }

    /** virtio_disk_rw(b, 0) */
    method Read(b: nat) returns (d: Block)
      requires b < |blocks|
      ensures d == blocks[b]
    {
      d := blocks[b];
    }

    /** virtio_disk_rw(b, 1) */
    method Write(b: nat, d: Block)
      requires b < |blocks|
      modifies this
      ensures blocks == old(blocks)[b := d]
      ensures history == old(history) + [blocks]
      ensures Valid()
    {
      blocks := blocks[b := d];
      history := history + [blocks];
    }
  }

  // ---- Buffers and their users ------------------------------------------

  /** struct buf without its list links; `locked` is the sleep-lock. */
  datatype Buf = Buf(valid: bool, dev: nat, blockno: nat, refcnt: nat, locked: bool, data: Block)

  predicate Holds(b: Buf, dev: nat, blockno: nat)
  {
    b.dev == dev && b.blockno == blockno
  }

  /** Who refers to which buffer: callers between bget and acquiresleep, lock
      holders and pins; for the last two, the block the buffer stands for. */
  datatype Users = Users(waiting: multiset<nat>, held: map<nat, nat>, pinned: map<nat, nat>)

  /** refcnt counts exactly the waiters, the holder and the pin. */
  ghost predicate Counted(buf: seq<Buf>, u: Users)
  {
    forall i: nat :: i < |buf| ==>
      && (buf[i].locked <==> i in u.held)
      && buf[i].refcnt == u.waiting[i] + (if i in u.held then 1 else 0) + (if i in u.pinned then 1 else 0)
  }

  /** The buffers in m are valid copies of the blocks in m. */
  ghost predicate Placed(buf: seq<Buf>, m: map<nat, nat>)
  {
    forall i :: i in m ==> i < |buf| && buf[i].valid && Holds(buf[i], ROOTDEV, m[i])
  }

  ghost predicate Apart(buf: seq<Buf>, i: nat, j: nat)
    requires i < |buf| && j < |buf|
  {
    buf[i].dev != 0 ==> !Holds(buf[j], buf[i].dev, buf[i].blockno)
  }

  /** No block of a real device is held by two buffers. */
  ghost predicate Unique(buf: seq<Buf>)
  {
    forall i: nat, j: nat :: i < j < |buf| ==> Apart(buf, i, j)
  }

  /** Every cached copy shows the logical contents. */
  ghost predicate Agrees(buf: seq<Buf>, logical: seq<Block>)
  {
    forall i :: 0 <= i < |buf| && buf[i].dev == ROOTDEV ==>
      buf[i].blockno < |logical| && (buf[i].valid ==> buf[i].data == logical[buf[i].blockno])
  }

  /** Membership under a name of its own: facts about modified blocks are used
      where the proofs ask for them. */
  ghost predicate Newer(dirty: set<nat>, b: nat)
  {
    b in dirty
  }

  /** Blocks newer than the disk are held or pinned; all others are on disk. */
  ghost predicate Durable(u: Users, blocks: seq<Block>, logical: seq<Block>, dirty: set<nat>)
  {
    && |blocks| == |logical|
    && (forall b :: Newer(dirty, b) ==> b in u.pinned.Values || b in u.held.Values)
    && (forall b :: 0 <= b < |logical| && b !in dirty ==> blocks[b] == logical[b])
  }

  ghost predicate Good(buf: seq<Buf>, u: Users, logical: seq<Block>)
  {
    Unique(buf) && Counted(buf, u) && Placed(buf, u.held) && Placed(buf, u.pinned) && Agrees(buf, logical)
  }

  ghost predicate Cached(buf: seq<Buf>, dev: nat, blockno: nat)
  {
    exists i :: 0 <= i < |buf| && Holds(buf[i], dev, blockno)
  }

  /** A lookup succeeds when the block is cached or some buffer is unreferenced;
      otherwise bget panics. */
  ghost predicate Available(buf: seq<Buf>, dev: nat, blockno: nat)
  {
    Cached(buf, dev, blockno) || exists i :: 0 <= i < |buf| && buf[i].refcnt == 0
  }

  lemma HoldersAreOne(buf: seq<Buf>, i: nat, j: nat)
    requires Unique(buf) && i < |buf| && j < |buf| && buf[i].dev != 0
    requires Holds(buf[i], buf[j].dev, buf[j].blockno)
    ensures i == j
  {
    if i < j { TwoApart(buf, i, j); } else if j < i { TwoApart(buf, j, i); }
  }

  lemma TwoApart(buf: seq<Buf>, i: nat, j: nat)
    requires Unique(buf) && i < j < |buf|
    ensures Apart(buf, i, j)
  {
  }

  /** A block is pinned in the buffer through which it is held. */
  lemma PinnedWhereHeld(buf: seq<Buf>, u: Users, i: nat)
    requires Unique(buf) && Placed(buf, u.held) && Placed(buf, u.pinned)
    requires i in u.held
    ensures u.held[i] in u.pinned.Values <==> i in u.pinned
    ensures i in u.pinned ==> u.pinned[i] == u.held[i]
  {
    if u.held[i] in u.pinned.Values {
      var j :| j in u.pinned && u.pinned[j] == u.held[i];
      HoldersAreOne(buf, i, j);
    }
  }

  /** Fewer holders and pins than buffers leave a buffer free for bget. */
  lemma Roomy(buf: seq<Buf>, u: Users, blockno: nat)
    requires Counted(buf, u) && Placed(buf, u.pinned)
    requires u.waiting == multiset{}
    requires blockno in u.pinned.Values || |u.held| + |u.pinned| < |buf|
    ensures Available(buf, ROOTDEV, blockno)
  {
    if blockno in u.pinned.Values {
      var i :| i in u.pinned && u.pinned[i] == blockno;
      assert Holds(buf[i], ROOTDEV, blockno);
    } else {
      var used := u.held.Keys + u.pinned.Keys;
      if Below(|buf|) <= used {
        SubsetSize(Below(|buf|), used);
      } else {
        var i :| i in Below(|buf|) && i !in used;
        assert buf[i].refcnt == 0;
      }
    }
  }

  // ---- What a change of one buffer keeps --------------------------------

  lemma UniqueAfter(buf: seq<Buf>, i: nat, x: Buf)
    requires Unique(buf) && i < |buf|
    requires Holds(buf[i], x.dev, x.blockno) || forall j :: 0 <= j < |buf| ==> !Holds(buf[j], x.dev, x.blockno)
    ensures Unique(buf[i := x])
  {
    var c := buf[i := x];
    forall j: nat, k: nat | j < k < |c| ensures Apart(c, j, k) {
      assert Apart(buf, j, k);
    }
  }

  lemma AgreesAfter(buf: seq<Buf>, logical: seq<Block>, i: nat, x: Buf)
    requires Agrees(buf, logical) && i < |buf|
    requires x.dev == ROOTDEV ==> x.blockno < |logical| && (x.valid ==> x.data == logical[x.blockno])
    ensures Agrees(buf[i := x], logical)
  {
  }

  /** u and v differ only in what they say about buffer i, which now is x. */
  lemma CountedAfter(buf: seq<Buf>, u: Users, v: Users, i: nat, x: Buf)
    requires Counted(buf, u) && i < |buf|
    requires forall j: nat :: j != i ==>
               v.waiting[j] == u.waiting[j] && (j in v.held <==> j in u.held) && (j in v.pinned <==> j in u.pinned)
    requires x.locked <==> i in v.held
    requires x.refcnt == v.waiting[i] + (if i in v.held then 1 else 0) + (if i in v.pinned then 1 else 0)
    ensures Counted(buf[i := x], v)
  {
  }

  lemma PlacedAfter(buf: seq<Buf>, m: map<nat, nat>, n: map<nat, nat>, i: nat, x: Buf)
    requires Placed(buf, m) && i < |buf|
    requires forall j :: j in n && j != i ==> j in m && m[j] == n[j]
    requires i in n ==> x.valid && Holds(x, ROOTDEV, n[i])
    ensures Placed(buf[i := x], n)
  {
  }

  /** Buffer i becomes x and the users u become v. */
  lemma GoodAfter(buf: seq<Buf>, u: Users, v: Users, logical: seq<Block>, i: nat, x: Buf)
    requires Good(buf, u, logical) && i < |buf|
    requires Holds(buf[i], x.dev, x.blockno) || forall j :: 0 <= j < |buf| ==> !Holds(buf[j], x.dev, x.blockno)
    requires x.dev == ROOTDEV ==> x.blockno < |logical| && (x.valid ==> x.data == logical[x.blockno])
    requires forall j: nat :: j != i ==>
               v.waiting[j] == u.waiting[j] && (j in v.held <==> j in u.held) && (j in v.pinned <==> j in u.pinned)
    requires forall j :: j in v.held && j != i ==> v.held[j] == u.held[j]
    requires forall j :: j in v.pinned && j != i ==> v.pinned[j] == u.pinned[j]
    requires x.locked <==> i in v.held
    requires x.refcnt == v.waiting[i] + (if i in v.held then 1 else 0) + (if i in v.pinned then 1 else 0)
    requires i in v.held ==> x.valid && Holds(x, ROOTDEV, v.held[i])
    requires i in v.pinned ==> x.valid && Holds(x, ROOTDEV, v.pinned[i])
    ensures Good(buf[i := x], v, logical)
  {
    UniqueAfter(buf, i, x);
    AgreesAfter(buf, logical, i, x);
    CountedAfter(buf, u, v, i, x);
    PlacedAfter(buf, u.held, v.held, i, x);
    PlacedAfter(buf, u.pinned, v.pinned, i, x);
  }

  /** The block of an invalid copy is up to date on disk. */
  lemma InvalidIsClean(buf: seq<Buf>, u: Users, blocks: seq<Block>, logical: seq<Block>, dirty: set<nat>, i: nat)
    requires Good(buf, u, logical) && Durable(u, blocks, logical, dirty)
    requires i < |buf| && buf[i].dev == ROOTDEV && !buf[i].valid
    ensures blocks[buf[i].blockno] == logical[buf[i].blockno]
  {
    NotPlaced(buf, u.pinned, i);
    NotPlaced(buf, u.held, i);
  }

  lemma NotPlaced(buf: seq<Buf>, m: map<nat, nat>, i: nat)
    requires Unique(buf) && Placed(buf, m) && i < |buf| && buf[i].dev == ROOTDEV && !buf[i].valid
    ensures buf[i].blockno !in m.Values
  {
    forall j | j in m ensures m[j] != buf[i].blockno {
      if m[j] == buf[i].blockno { HoldersAreOne(buf, i, j); }
    }
  }

  lemma MoreValues(m: map<nat, nat>, i: nat, b: nat)
    requires i in m ==> m[i] == b
    ensures m[i := b].Values == m.Values + {b}
  {
    var n := m[i := b];
    assert n[i] == b;
    forall x | x in m.Values ensures x in n.Values {
      var j :| j in m && m[j] == x;
      assert n[j] == x;
    }
  }

  lemma FewerValues(m: map<nat, nat>, i: nat)
    requires i in m
    requires forall j, k :: j in m && k in m && j != k ==> m[j] != m[k]
    ensures (m - {i}).Values == m.Values - {m[i]}
  {
    var n := m - {i};
    forall x | x in m.Values - {m[i]} ensures x in n.Values {
      var j :| j in m && m[j] == x;
      assert n[j] == x;
    }
  }

  /** Distinct buffers stand for distinct blocks. */
  lemma PlacedInjective(buf: seq<Buf>, m: map<nat, nat>)
    requires Unique(buf) && Placed(buf, m)
    ensures forall j, k :: j in m && k in m && j != k ==> m[j] != m[k]
  {
    forall j, k | j in m && k in m && j != k ensures m[j] != m[k] {
      if m[j] == m[k] { HoldersAreOne(buf, j, k); }
    }
  }

  lemma FillKeeps(buf: seq<Buf>, u: Users, blocks: seq<Block>, logical: seq<Block>, dirty: set<nat>, i: nat)
    requires Good(buf, u, logical) && Durable(u, blocks, logical, dirty)
    requires i < |buf| && buf[i].dev == ROOTDEV && i !in u.held && u.waiting[i] > 0
    ensures var b := buf[i].blockno;
            var v := Users(u.waiting - multiset{i}, u.held[i := b], u.pinned);
            && Good(buf[i := buf[i].(locked := true, valid := true, data := logical[b])], v, logical)
            && Durable(v, blocks, logical, dirty)
  {
    var b := buf[i].blockno;
    var v := Users(u.waiting - multiset{i}, u.held[i := b], u.pinned);
    GoodAfter(buf, u, v, logical, i, buf[i].(locked := true, valid := true, data := logical[b]));
    MoreValues(u.held, i, b);
  }

  lemma ReleaseKeeps(buf: seq<Buf>, u: Users, blocks: seq<Block>, logical: seq<Block>, dirty: set<nat>, i: nat)
    requires Good(buf, u, logical) && Durable(u, blocks, logical, dirty) && i in u.held
    requires u.held[i] in dirty ==> u.held[i] in u.pinned.Values
    ensures i < |buf| && buf[i].refcnt > 0
    ensures var v := u.(held := u.held - {i});
            && Good(buf[i := buf[i].(locked := false, refcnt := buf[i].refcnt - 1)], v, logical)
            && Durable(v, blocks, logical, dirty)
  {
    GoodAfter(buf, u, u.(held := u.held - {i}), logical, i, buf[i].(locked := false, refcnt := buf[i].refcnt - 1));
    PlacedInjective(buf, u.held);
    FewerValues(u.held, i);
  }

  lemma PinKeeps(buf: seq<Buf>, u: Users, blocks: seq<Block>, logical: seq<Block>, dirty: set<nat>, i: nat)
    requires Good(buf, u, logical) && Durable(u, blocks, logical, dirty) && i in u.held && i !in u.pinned
    ensures i < |buf|
    ensures var v := u.(pinned := u.pinned[i := u.held[i]]);
            && Good(buf[i := buf[i].(refcnt := buf[i].refcnt + 1)], v, logical)
            && Durable(v, blocks, logical, dirty)
  {
    GoodAfter(buf, u, u.(pinned := u.pinned[i := u.held[i]]), logical, i, buf[i].(refcnt := buf[i].refcnt + 1));
    MoreValues(u.pinned, i, u.held[i]);
  }

  lemma UnpinKeeps(buf: seq<Buf>, u: Users, blocks: seq<Block>, logical: seq<Block>, dirty: set<nat>, i: nat)
    requires Good(buf, u, logical) && Durable(u, blocks, logical, dirty) && i in u.held && i in u.pinned
    ensures i < |buf| && buf[i].refcnt > 0
    ensures var v := u.(pinned := u.pinned - {i});
            && Good(buf[i := buf[i].(refcnt := buf[i].refcnt - 1)], v, logical)
            && Durable(v, blocks, logical, dirty)
  {
    GoodAfter(buf, u, u.(pinned := u.pinned - {i}), logical, i, buf[i].(refcnt := buf[i].refcnt - 1));
    PlacedInjective(buf, u.pinned);
    FewerValues(u.pinned, i);
    assert u.held[i] in u.held.Values;
  }

  class Cache {
    const disk: Disk
    const buf: array<Buf>
    const lru: Recency
    ghost var users: Users
    ghost var logical: seq<Block>  // what bread must return
    ghost var dirty: set<nat>      // blocks modified since they were last written to disk

    ghost predicate Shape()
      reads this, disk, buf, lru, lru.next, lru.prev
    {
      disk.Valid() && buf.Length == lru.n == NBUF && lru.Valid()
    }

    ghost predicate Valid()
      reads this, disk, buf, lru, lru.next, lru.prev
      ensures Valid() ==> buf.Length == NBUF && |disk.blocks| == |logical|
    {
      Shape() && Good(buf[..], users, logical) && Durable(users, disk.blocks, logical, dirty)
    }

    constructor (disk: Disk)
      requires disk.Valid()
      ensures Valid()
      ensures this.disk == disk && fresh(buf) && fresh(lru) && fresh(lru.next) && fresh(lru.prev)
      ensures logical == disk.blocks && dirty == {} && users == Users(multiset{}, map[], map[])
      ensures forall i :: 0 <= i < NBUF ==> buf[i] == Buf(false, 0, 0, 0, false, Zeroes(BSIZE))
    {
      this.disk := disk;
      buf := new Buf[NBUF](_ => Buf(false, 0, 0, 0, false, Zeroes(BSIZE)));
      lru := new Recency(NBUF);
      users := Users(multiset{}, map[], map[]);
      logical := disk.blocks;
      dirty := {};
    }

    /** bget's forward scan for a cached copy; NBUF when there is none. */
    method FindCached(dev: nat, blockno: nat) returns (i: nat)
      requires Shape()
      ensures i <= NBUF
      ensures i < NBUF ==> Holds(buf[i], dev, blockno)
      ensures i < NBUF <==> Cached(buf[..], dev, blockno)
    {
      ghost var order := lru.order;
      ghost var k := 0;
      i := lru.next[NBUF];
      assert i == At(NBUF, order, 0) by { assert At(NBUF, order, -1) == NBUF; }
      while i != NBUF
        invariant 0 <= k <= NBUF && i == At(NBUF, order, k)
        invariant forall l :: 0 <= l < k ==> !Holds(buf[order[l]], dev, blockno)
        decreases NBUF - k
      {
        if Holds(buf[i], dev, blockno) {
          assert Holds(buf[..][i], dev, blockno);
          return;
        }
        assert lru.next[i] == At(NBUF, order, k + 1);
        i := lru.next[i];
        k := k + 1;
      }
      PermutationCovers(order, NBUF);
      forall j | 0 <= j < NBUF ensures !Holds(buf[..][j], dev, blockno) {
        assert j in order;
      }
    }

    /** Unreferenced, with only referenced buffers behind it in the list. */
    ghost predicate LeastRecentlyUsed(i: nat)
      requires Shape()
      reads this, disk, buf, lru, lru.next, lru.prev
    {
      && i < NBUF && buf[i].refcnt == 0
      && exists k :: 0 <= k < NBUF && lru.order[k] == i &&
           forall l :: k < l < NBUF ==> buf[lru.order[l]].refcnt > 0
    }

    /** bget's backward scan for the least recently used unreferenced buffer. */
    method FindUnused() returns (i: nat)
      requires Shape()
      requires exists j :: 0 <= j < NBUF && buf[j].refcnt == 0
      ensures LeastRecentlyUsed(i)
    {
      ghost var order := lru.order;
      ghost var k := NBUF - 1;
      i := lru.prev[NBUF];
      assert i == At(NBUF, order, NBUF - 1) by { assert At(NBUF, order, NBUF) == NBUF; }
      while i != NBUF
        invariant -1 <= k < NBUF && i == At(NBUF, order, k)
        invariant forall l :: k < l < NBUF ==> buf[order[l]].refcnt > 0
        decreases k + 1
      {
        if buf[i].refcnt == 0 { return; }
        assert lru.prev[i] == At(NBUF, order, k - 1);
        i := lru.prev[i];
        k := k - 1;
      }
      PermutationCovers(order, NBUF);
      forall j | 0 <= j < NBUF ensures buf[j].refcnt > 0 {
        assert j in order;
      }
      assert false;
    }

    /** A cached copy gains a reference. */
    method Reference(i: nat)
      requires Valid() && i < NBUF
      modifies buf, this`users
      ensures Valid()
      ensures buf[..] == old(buf[..])[i := old(buf[i]).(refcnt := old(buf[i].refcnt) + 1)]
      ensures users == old(users).(waiting := old(users.waiting)[i := old(users.waiting)[i] + 1])
    {
      ghost var v := users.(waiting := users.waiting[i := users.waiting[i] + 1]);
      GoodAfter(buf[..], users, v, logical, i, buf[i].(refcnt := buf[i].refcnt + 1));
      buf[i] := buf[i].(refcnt := buf[i].refcnt + 1);
      users := v;
    }

    /** An unreferenced buffer is given a new identity. */
    method Recycle(i: nat, dev: nat, blockno: nat)
      requires Valid() && i < NBUF && buf[i].refcnt == 0
      requires dev == ROOTDEV ==> blockno < |logical|
      requires !Cached(buf[..], dev, blockno)
      modifies buf, this`users
      ensures Valid()
      ensures buf[..] == old(buf[..])[i := Buf(false, dev, blockno, 1, false, old(buf[i].data))]
      ensures users == old(users).(waiting := old(users.waiting)[i := old(users.waiting)[i] + 1])
    {
      ghost var v := users.(waiting := users.waiting[i := users.waiting[i] + 1]);
      GoodAfter(buf[..], users, v, logical, i, buf[i].(dev := dev, blockno := blockno, valid := false, refcnt := 1));
      buf[i] := buf[i].(dev := dev, blockno := blockno, valid := false, refcnt := 1);
      users := v;
    }

    /** A referenced buffer is never recycled: either a cached copy gains a
        reference, or the least recently used free buffer is renamed. */
    method Bget(dev: nat, blockno: nat) returns (i: nat)
      requires Valid()
      requires dev == ROOTDEV ==> blockno < |logical|
      requires Available(buf[..], dev, blockno)
      modifies buf, this`users
      ensures Valid()
      ensures i < NBUF && Holds(buf[i], dev, blockno)
      ensures users == old(users).(waiting := old(users.waiting)[i := old(users.waiting)[i] + 1])
      ensures Cached(old(buf[..]), dev, blockno) ==>
                buf[..] == old(buf[..])[i := old(buf[i]).(refcnt := old(buf[i].refcnt) + 1)]
      ensures !Cached(old(buf[..]), dev, blockno) ==>
                && old(LeastRecentlyUsed(i))
                && buf[..] == old(buf[..])[i := Buf(false, dev, blockno, 1, false, old(buf[i].data))]
    {
      i := FindCached(dev, blockno);
      if i < NBUF {
        Reference(i);
        return;
      }
      i := FindUnused();
      Recycle(i, dev, blockno);
    }

    /** acquiresleep, then the disk read of bread when the copy is not valid. */
    method LockAndFill(i: nat)
      requires Valid()
      requires i < NBUF && buf[i].dev == ROOTDEV
      requires i !in users.held && users.waiting[i] > 0
      modifies buf, this`users
      ensures Valid()
      ensures users ==
                Users(old(users.waiting) - multiset{i}, old(users.held)[i := old(buf[i].blockno)], old(users.pinned))
      ensures old(buf[i].blockno) < |logical|
      ensures buf[..] ==
                old(buf[..])[i := old(buf[i]).(locked := true, valid := true, data := logical[old(buf[i].blockno)])]
    {
      FillKeeps(buf[..], users, disk.blocks, logical, dirty, i);
      ghost var v := Users(users.waiting - multiset{i}, users.held[i := buf[i].blockno], users.pinned);
      var x := buf[i].(locked := true);
      if !x.valid {
        InvalidIsClean(buf[..], users, disk.blocks, logical, dirty, i);
        var d := disk.Read(x.blockno);
        x := x.(data := d, valid := true);
      }
      buf[i] := x;
      users := v;
    }

    lemma NotHeld(i: nat, blockno: nat)
      requires Valid() && i < NBUF && buf[i].blockno == blockno && blockno !in users.held.Values
      ensures i !in users.held
    {
      assert buf[..][i] == buf[i];
    }

    /** bread: whatever was evicted in between, the caller sees the logical contents. */
    method Bread(blockno: nat) returns (i: nat)
      requires Valid()
      requires blockno < |logical| && blockno !in users.held.Values
      requires Available(buf[..], ROOTDEV, blockno)
      modifies buf, this`users
      ensures Valid()
      ensures i < NBUF && buf[i].data == logical[blockno]
      ensures i !in old(users.held) && users == old(users).(held := old(users.held)[i := blockno])
      ensures forall j :: 0 <= j < NBUF && j != i ==> buf[j] == old(buf[j])
    {
      hide Valid, Available, Cached, LeastRecentlyUsed;
      i := Bget(ROOTDEV, blockno);
      NotHeld(i, blockno);
      LockAndFill(i);
      assert old(users.waiting)[i := old(users.waiting)[i] + 1] - multiset{i} == old(users.waiting);
    }

    /** A holder changes the buffer; from now on this is the block's logical contents. */
    method Modify(i: nat, d: Block)
      requires Valid()
      requires i in users.held && users.held[i] < |logical|
      modifies this`logical, this`dirty, buf
      ensures Valid()
      ensures logical == old(logical)[users.held[i] := d]
      ensures dirty == old(dirty) + {users.held[i]}
      ensures i < NBUF && buf[..] == old(buf[..])[i := old(buf[i]).(data := d)]
    {
      GoodModified(buf[..], users, logical, i, d);
      buf[i] := buf[i].(data := d);
      logical := logical[users.held[i] := d];
      dirty := dirty + {users.held[i]};
    }

    /** bwrite: the disk catches up with the logical contents of this block. */
    method Bwrite(i: nat)
      requires Valid()
      requires i in users.held && users.held[i] < |logical|
      modifies disk, this`dirty
      ensures Valid()
      ensures |old(disk.blocks)| == |logical|
      ensures disk.blocks == old(disk.blocks)[users.held[i] := logical[users.held[i]]]
      ensures disk.history == old(disk.history) + [disk.blocks]
      ensures dirty == old(dirty) - {users.held[i]}
    {
      disk.Write(buf[i].blockno, buf[i].data);
      dirty := dirty - {users.held[i]};
    }

    /** releasesleep and the decrement of brelse. */
    method DropReference(i: nat)
      requires Valid()
      requires i in users.held
      requires users.held[i] in dirty ==> users.held[i] in users.pinned.Values
      modifies buf, this`users
      ensures Valid()
      ensures users == old(users).(held := old(users.held) - {i})
      ensures i < NBUF && old(buf[i].refcnt) > 0
      ensures buf[..] == old(buf[..])[i := old(buf[i]).(locked := false, refcnt := old(buf[i].refcnt) - 1)]
    {
      ReleaseKeeps(buf[..], users, disk.blocks, logical, dirty, i);
      buf[i] := buf[i].(locked := false, refcnt := buf[i].refcnt - 1);
      users := users.(held := users.held - {i});
    }

    /** brelse: drop the lock and the reference; an unreferenced buffer moves
        to the front.  A block newer than the disk must have been pinned. */
    method Brelse(i: nat)
      requires Valid()
      requires i in users.held
      requires users.held[i] in dirty ==> users.held[i] in users.pinned.Values
      modifies buf, lru, lru.next, lru.prev, this`users
      ensures Valid()
      ensures users == old(users).(held := old(users.held) - {i})
      ensures i < NBUF && old(buf[i].refcnt) > 0
      ensures buf[..] == old(buf[..])[i := old(buf[i]).(locked := false, refcnt := old(buf[i].refcnt) - 1)]
      ensures buf[i].refcnt > 0 ==> lru.order == old(lru.order)
      ensures buf[i].refcnt == 0 ==> MovedToFront(old(lru.order), lru.order, i)
    {
      DropReference(i);
      if buf[i].refcnt == 0 {
        lru.MoveToFront(i);
      }
    }

    method Bpin(i: nat)
      requires Valid()
      requires i in users.held && i !in users.pinned
      modifies buf, this`users
      ensures Valid()
      ensures users == old(users).(pinned := old(users.pinned)[i := old(users.held)[i]])
      ensures i < NBUF && buf[..] == old(buf[..])[i := old(buf[i]).(refcnt := old(buf[i].refcnt) + 1)]
    {
      PinKeeps(buf[..], users, disk.blocks, logical, dirty, i);
      buf[i] := buf[i].(refcnt := buf[i].refcnt + 1);
      users := users.(pinned := users.pinned[i := users.held[i]]);
    }

    method Bunpin(i: nat)
      requires Valid()
      requires i in users.held && i in users.pinned
      modifies buf, this`users
      ensures Valid()
      ensures users == old(users).(pinned := old(users.pinned) - {i})
      ensures i < NBUF && old(buf[i].refcnt) > 0
      ensures buf[..] == old(buf[..])[i := old(buf[i]).(refcnt := old(buf[i].refcnt) - 1)]
    {
      UnpinKeeps(buf[..], users, disk.blocks, logical, dirty, i);
      buf[i] := buf[i].(refcnt := buf[i].refcnt - 1);
      users := users.(pinned := users.pinned - {i});
    }
  }

  lemma GoodModified(buf: seq<Buf>, u: Users, logical: seq<Block>, i: nat, d: Block)
    requires Good(buf, u, logical) && i in u.held && u.held[i] < |logical|
    ensures Good(buf[i := buf[i].(data := d)], u, logical[u.held[i] := d])
  {
    var b, x := u.held[i], buf[i].(data := d);
    UniqueAfter(buf, i, x);
    CountedAfter(buf, u, u, i, x);
    PlacedAfter(buf, u.held, u.held, i, x);
    PlacedAfter(buf, u.pinned, u.pinned, i, x);
    forall j: nat | j < |buf| && j != i && buf[j].dev == ROOTDEV ensures buf[j].blockno != b {
      if buf[j].blockno == b { HoldersAreOne(buf, i, j); }
    }
    assert Agrees(buf[i := x], logical[b := d]);
  }
}
