/** Files as byte sequences: the contents that the inode slots stand for, and
    what allocation and block writes do to the contents of every file. */
module FileContent {
  import opened Words
  import opened BufferCache
  import opened FsLayout

  const MAXSIZE: nat := 274432  // MAXFILE * BSIZE

  /** The block behind byte p of a file; 0 in a hole. */
  function BlockAt(blocks: seq<Block>, ino: Inode, p: nat): (b: nat)
  {
    SlotOf(blocks, ino, FileSlot(p / BSIZE))
  }

  function ByteAt(blocks: seq<Block>, ino: Inode, p: nat): (c: byte)
  {
    var b := BlockAt(blocks, ino, p);
    if b < |blocks| then blocks[b][p % BSIZE] else 0
  }

  /** Every byte below the size has a block. */
  ghost predicate NoHoles(blocks: seq<Block>, ino: Inode)
  {
    ino.size <= MAXSIZE && forall p: nat :: p < ino.size ==> BlockAt(blocks, ino, p) != 0
  }

  ghost function Content(blocks: seq<Block>, ino: Inode): (s: seq<byte>)
    ensures |s| == ino.size
  {
    seq(ino.size, p requires 0 <= p => ByteAt(blocks, ino, p))
  }

  /** Every byte of every file outside bytes lo..hi of file i keeps its block and its value. */
  ghost predicate Kept(b0: seq<Block>, n0: Inodes, b1: seq<Block>, n1: Inodes, i: nat, lo: nat, hi: nat)
  {
    && n1.Keys == n0.Keys
    && forall j: nat, p: nat :: j in n0 && p < MAXSIZE && BlockAt(b0, n0[j], p) != 0 && !(j == i && lo <= p < hi) ==>
         BlockAt(b1, n1[j], p) != 0 && ByteAt(b1, n1[j], p) == ByteAt(b0, n0[j], p)
  }

  lemma KeptCompose(b0: seq<Block>, n0: Inodes, b1: seq<Block>, n1: Inodes, b2: seq<Block>, n2: Inodes,
                    i: nat, lo: nat, mid: nat, hi: nat)
    requires Kept(b0, n0, b1, n1, i, lo, mid) && Kept(b1, n1, b2, n2, i, mid, hi) && lo <= mid <= hi
    ensures Kept(b0, n0, b2, n2, i, lo, hi)
  {
    forall j: nat, p: nat | j in n0 && p < MAXSIZE && BlockAt(b0, n0[j], p) != 0 && !(j == i && lo <= p < hi)
      ensures BlockAt(b2, n2[j], p) != 0 && ByteAt(b2, n2[j], p) == ByteAt(b0, n0[j], p)
    {
      assert BlockAt(b1, n1[j], p) != 0;
    }
  }

  /** Bytes lo.. of the file are data, and have blocks. */
  ghost predicate Stored(blocks: seq<Block>, ino: Inode, lo: nat, data: seq<byte>)
  {
    forall p: nat :: lo <= p < lo + |data| ==> BlockAt(blocks, ino, p) != 0 && ByteAt(blocks, ino, p) == data[p - lo]
  }

  /** Slots that name a block still do, and the blocks of files have not changed. */
  lemma KeptBySlots(sb: Super, b0: seq<Block>, n0: Inodes, owner: map<nat, Slot>, loose: set<nat>, b1: seq<Block>,
                    n1: Inodes, i: nat)
    requires FsOk(sb, b0, n0, owner, loose)
    requires n1.Keys == n0.Keys && |b1| == |b0|
    requires forall j: nat, k: nat :: j in n0 && k < NSLOT && SlotOf(b0, n0[j], k) != 0 ==>
               SlotOf(b1, n1[j], k) == SlotOf(b0, n0[j], k)
    requires forall v :: v in owner && owner[v].1 != NDIRECT ==> v < |b0| && b1[v] == b0[v]
    ensures Kept(b0, n0, b1, n1, i, 0, 0)
  {
    forall j: nat, p: nat | j in n0 && p < MAXSIZE && BlockAt(b0, n0[j], p) != 0
      ensures BlockAt(b1, n1[j], p) != 0 && ByteAt(b1, n1[j], p) == ByteAt(b0, n0[j], p)
    {
      var k := FileSlot(p / BSIZE);
      assert SlotOk(b0, n0, owner, j, k);
      assert SlotOf(b1, n1[j], k) == SlotOf(b0, n0[j], k);
    }
  }

  lemma MetaNotOwned(sb: Super, blocks: seq<Block>, inodes: Inodes, owner: map<nat, Slot>, c: nat)
    requires OwnersOk(sb, blocks, inodes, owner) && c < sb.datastart
    ensures c !in owner
  {
  }

  /** A block number in a slot is that of a data block. */
  lemma SlotInRange(sb: Super, blocks: seq<Block>, inodes: Inodes, owner: map<nat, Slot>, loose: set<nat>, i: nat,
                    k: nat)
    requires FsOk(sb, blocks, inodes, owner, loose) && i in inodes && k < NSLOT && SlotOf(blocks, inodes[i], k) != 0
    ensures sb.datastart <= SlotOf(blocks, inodes[i], k) < sb.size
    ensures SlotOf(blocks, inodes[i], k) in owner && owner[SlotOf(blocks, inodes[i], k)] == (i, k)
  {
    assert SlotOk(blocks, inodes, owner, i, k);
    assert OwnerOk(sb, blocks, inodes, owner, SlotOf(blocks, inodes[i], k));
  }

  /** Claiming a free block disturbs no slot and no owned block. */
  lemma ClaimSlots(sb: Super, blocks: seq<Block>, inodes: Inodes, owner: map<nat, Slot>, loose: set<nat>, b: nat)
    requires FsOk(sb, blocks, inodes, owner, loose) && b < sb.size && !BitAt(sb, blocks, b)
    ensures var claimed := Flipped(sb, blocks, b)[b := Zeroes(BSIZE)];
            && (forall i: nat, k: nat ::
                i in inodes && k < NSLOT ==> SlotOf(claimed, inodes[i], k) == SlotOf(blocks, inodes[i], k))
            && (forall v :: v in owner ==> v < |blocks| && claimed[v] == blocks[v])
  {
    hide BitAt;
    BallocKeeps(sb, blocks, inodes, owner, loose, b);
    var flipped := Flipped(sb, blocks, b);
    var claimed := flipped[b := Zeroes(BSIZE)];
    var c := BBlock(sb, b);
    MetaNotOwned(sb, blocks, inodes, owner, c);
    FlipKeepsSlots(sb, blocks, inodes, owner, loose, b);
    forall i: nat, k: nat | i in inodes && k < NSLOT
      ensures SlotOf(claimed, inodes[i], k) == SlotOf(blocks, inodes[i], k)
    {
      SlotUnaffected(sb, blocks, inodes, owner, c, FlipBit(blocks[c], b % BPB), i, k);
      SlotUnaffected(sb, flipped, inodes, owner, b, Zeroes(BSIZE), i, k);
    }
    forall v | v in owner ensures v < |blocks| && claimed[v] == blocks[v] {
      assert OwnerOk(sb, blocks, inodes, owner, v);
    }
  }

  /** balloc followed by the store of the new block into address k of inode i. */
  lemma AllocAddr(sb: Super, b0: seq<Block>, n0: Inodes, o0: map<nat, Slot>, i: nat, k: nat, b: nat)
    requires FsOk(sb, b0, n0, o0, {}) && b < sb.size && !BitAt(sb, b0, b)
    requires i in n0 && k <= NDIRECT && n0[i].addrs[k] == 0
    ensures 0 < sb.datastart <= b && b !in o0
    ensures var b1, n1 := Flipped(sb, b0, b)[b := Zeroes(BSIZE)], n0[i := SetAddr(n0[i], k, b)];
            && FsOk(sb, b1, n1, o0[b := (i, k)], {})
            && Kept(b0, n0, b1, n1, i, 0, 0)
  {
    hide BitAt;
    var b1, n1 := Flipped(sb, b0, b)[b := Zeroes(BSIZE)], n0[i := SetAddr(n0[i], k, b)];
    BallocKeeps(sb, b0, n0, o0, {}, b);
    ClaimSlots(sb, b0, n0, o0, {}, b);
    assert {} + {b} == {b} && {b} - {b} == {};
    AttachDirect(sb, b1, n0, o0, {b}, i, k, b);
    forall j: nat, l: nat | j in n0 && l < NSLOT && SlotOf(b0, n0[j], l) != 0
      ensures SlotOf(b1, n1[j], l) == SlotOf(b0, n0[j], l)
    {
    }
    KeptBySlots(sb, b0, n0, o0, {}, b1, n1, i);
  }

  /** balloc followed by the store of the new block into entry e of the indirect block. */
  lemma AllocEntry(sb: Super, b0: seq<Block>, n0: Inodes, o0: map<nat, Slot>, i: nat, e: nat, b: nat)
    requires FsOk(sb, b0, n0, o0, {}) && b < sb.size && !BitAt(sb, b0, b)
    requires i in n0 && e < NINDIRECT && n0[i].addrs[NDIRECT] != 0 && SlotOf(b0, n0[i], NDIRECT + 1 + e) == 0
    ensures 0 < sb.datastart <= b && b !in o0
    ensures var ind := n0[i].addrs[NDIRECT];
            && sb.datastart <= ind < sb.size && ind != b
            && var c := Flipped(sb, b0, b)[b := Zeroes(BSIZE)];
               var b1 := c[ind := SetWord(c[ind], e, b)];
               && c[ind] == b0[ind]
               && FsOk(sb, b1, n0, o0[b := (i, NDIRECT + 1 + e)], {})
               && Kept(b0, n0, b1, n0, i, 0, 0) && SlotOf(b1, n0[i], NDIRECT + 1 + e) == b
  {
    hide BitAt, Word;
    var ind := n0[i].addrs[NDIRECT];
    var c := Flipped(sb, b0, b)[b := Zeroes(BSIZE)];
    BallocKeeps(sb, b0, n0, o0, {}, b);
    ClaimSlots(sb, b0, n0, o0, {}, b);
    assert {} + {b} == {b} && {b} - {b} == {};
    AttachEntry(sb, c, n0, o0, {b}, i, e, b);
    var b1 := c[ind := SetWord(c[ind], e, b)];
    forall j: nat, l: nat | j in n0 && l < NSLOT && SlotOf(b0, n0[j], l) != 0
      ensures SlotOf(b1, n0[j], l) == SlotOf(b0, n0[j], l)
    {
      assert SlotOk(b0, n0, o0, j, NDIRECT);
    }
    KeptBySlots(sb, b0, n0, o0, {}, b1, n0, i);
  }

  // ---- Writing into one block -------------------------------------------

  /** memmove of data to offset at of a block. */
  function Patch(d: Block, at: nat, data: seq<byte>): (r: Block)
    requires at + |data| <= BSIZE
  {
    d[..at] + data + d[at + |data|..]
  }

  /** Patching the block of file offset off changes bytes off.. of this file and nothing else. */
  lemma PatchKeeps(sb: Super, b0: seq<Block>, n: Inodes, owner: map<nat, Slot>, i: nat, off: nat, data: seq<byte>)
    requires FsOk(sb, b0, n, owner, {}) && i in n && off < MAXSIZE && off % BSIZE + |data| <= BSIZE
    requires BlockAt(b0, n[i], off) != 0
    ensures BlockAt(b0, n[i], off) < sb.size && BlockAt(b0, n[i], off) >= sb.datastart
    ensures var v := BlockAt(b0, n[i], off);
            var b1 := b0[v := Patch(b0[v], off % BSIZE, data)];
            && FsOk(sb, b1, n, owner, {})
            && BlockAt(b1, n[i], off) == v
            && Kept(b0, n, b1, n, i, off, off + |data|) && Stored(b1, n[i], off, data)
  {
    hide FsOk;
    var v := BlockAt(b0, n[i], off);
    SlotInRange(sb, b0, n, owner, {}, i, FileSlot(off / BSIZE));
    var d := Patch(b0[v], off % BSIZE, data);
    var b1 := b0[v := d];
    WriteKeeps(sb, b0, n, owner, {}, v, d);
    forall j: nat, p: nat | j in n && p < MAXSIZE && BlockAt(b0, n[j], p) != 0
      ensures BlockAt(b1, n[j], p) == BlockAt(b0, n[j], p)
      ensures !(j == i && off <= p < off + |data|) ==> ByteAt(b1, n[j], p) == ByteAt(b0, n[j], p)
    {
      PatchByte(sb, b0, n, owner, i, off, data, j, p);
    }
    forall p: nat | off <= p < off + |data|
      ensures BlockAt(b1, n[i], p) != 0 && ByteAt(b1, n[i], p) == data[p - off]
    {
      assert p / BSIZE == off / BSIZE;
      assert BlockAt(b0, n[i], p) == v && BlockAt(b1, n[i], p) == v;
    }
  }

  lemma PatchByte(sb: Super, b0: seq<Block>, n: Inodes, owner: map<nat, Slot>, i: nat, off: nat, data: seq<byte>,
                  j: nat, p: nat)
    requires FsOk(sb, b0, n, owner, {}) && i in n && off < MAXSIZE && off % BSIZE + |data| <= BSIZE
    requires 0 < BlockAt(b0, n[i], off) < sb.size
    requires j in n && p < MAXSIZE && BlockAt(b0, n[j], p) != 0
    ensures var v := BlockAt(b0, n[i], off);
            var b1 := b0[v := Patch(b0[v], off % BSIZE, data)];
            && BlockAt(b1, n[j], p) == BlockAt(b0, n[j], p)
            && (!(j == i && off <= p < off + |data|) ==> ByteAt(b1, n[j], p) == ByteAt(b0, n[j], p))
  {
    hide Word, BitAt;
    var v := BlockAt(b0, n[i], off);
    SlotInRange(sb, b0, n, owner, {}, i, FileSlot(off / BSIZE));
    SlotInRange(sb, b0, n, owner, {}, j, FileSlot(p / BSIZE));
    SlotUnaffected(sb, b0, n, owner, v, Patch(b0[v], off % BSIZE, data), j, FileSlot(p / BSIZE));
    if BlockAt(b0, n[j], p) == v {
      assert j == i && p / BSIZE == off / BSIZE;
      assert p % BSIZE - off % BSIZE == p - off;
    }
  }

  /** One more chunk after the bytes already stored. */
  lemma StoredCompose(b1: seq<Block>, n1: Inodes, b2: seq<Block>, n2: Inodes, i: nat, lo: nat, d1: seq<byte>,
                      d2: seq<byte>)
    requires i in n1 && i in n2 && lo + |d1| <= MAXSIZE
    requires Stored(b1, n1[i], lo, d1) && Kept(b1, n1, b2, n2, i, lo + |d1|, lo + |d1| + |d2|)
    requires Stored(b2, n2[i], lo + |d1|, d2)
    ensures Stored(b2, n2[i], lo, d1 + d2)
  {
    forall p: nat | lo <= p < lo + |d1 + d2|
      ensures BlockAt(b2, n2[i], p) != 0 && ByteAt(b2, n2[i], p) == (d1 + d2)[p - lo]
    {
      if p < lo + |d1| { assert BlockAt(b1, n1[i], p) != 0; }
    }
  }

  // ---- Whole files ------------------------------------------------------

  ghost predicate AllNoHoles(blocks: seq<Block>, inodes: Inodes)
  {
    forall i: nat :: i in inodes ==> NoHoles(blocks, inodes[i])
  }

  /** s with d written at offset off; d may run past the end. */
  function Overlay(s: seq<byte>, off: nat, d: seq<byte>): (r: seq<byte>)
    requires off <= |s|
    ensures |r| == if off + |d| > |s| then off + |d| else |s|
  {
    s[..off] + d + if off + |d| < |s| then s[off + |d|..] else []
  }

  /** A file whose bytes were all kept has the same contents. */
  lemma SameContent(b0: seq<Block>, n0: Inodes, b1: seq<Block>, n1: Inodes, i: nat, lo: nat, hi: nat, j: nat)
    requires Kept(b0, n0, b1, n1, i, lo, hi) && j in n0 && (j == i ==> lo == hi)
    requires n1[j].size == n0[j].size && NoHoles(b0, n0[j])
    ensures NoHoles(b1, n1[j]) && Content(b1, n1[j]) == Content(b0, n0[j])
  {
  }

  /** Storing d at off in file i, with the size raised to cover tot of its bytes. */
  lemma WrittenContent(b0: seq<Block>, n0: Inodes, b1: seq<Block>, n1: Inodes, i: nat, off: nat, d: seq<byte>, tot: nat)
    requires i in n0 && NoHoles(b0, n0[i]) && off <= n0[i].size && tot <= |d| && off + |d| <= MAXSIZE
    requires Kept(b0, n0, b1, n1, i, off, off + |d|) && Stored(b1, n1[i], off, d)
    requires n1[i].size == if off + tot > n0[i].size then off + tot else n0[i].size
    ensures NoHoles(b1, n1[i])
    ensures Content(b1, n1[i]) == Overlay(Content(b0, n0[i]), off, d)[..n1[i].size]
  {
    var c0 := Content(b0, n0[i]);
    var r := Overlay(c0, off, d);
    forall p: nat | p < n1[i].size ensures BlockAt(b1, n1[i], p) != 0 && ByteAt(b1, n1[i], p) == r[p] {
      if off <= p < off + |d| {
        assert ByteAt(b1, n1[i], p) == d[p - off];
      } else {
        assert BlockAt(b0, n0[i], p) != 0;
      }
    }
  }

  // ---- On-disk inodes ---------------------------------------------------

  /** The s-th dinode of an inode block, as ilock copies it. */
  function ReadInode(d: Block, s: nat): (ino: Inode)
    requires s < IPB
  {
    Inode((Word(d, 16 * s), Word(d, 16 * s + 1)), Word(d, 16 * s + 2),
          seq<uint32>(NDIRECT + 1, k requires 0 <= k <= NDIRECT => Word(d, 16 * s + 3 + k)))
  }

  function IBlock(sb: Super, i: nat): (b: nat)
  {
    i / IPB + sb.inodestart
  }

  ghost predicate SyncedAt(sb: Super, blocks: seq<Block>, inodes: Inodes, i: nat)
    requires i in inodes
  {
    IBlock(sb, i) < |blocks| && ReadInode(blocks[IBlock(sb, i)], i % IPB) == inodes[i]
  }

  /** The inodes on disk are those in memory. */
  ghost predicate Synced(sb: Super, blocks: seq<Block>, inodes: Inodes)
  {
    forall i: nat :: i in inodes ==> SyncedAt(sb, blocks, inodes, i)
  }

  /** The inode blocks are those of b0. */
  ghost predicate SameInodeBlocks(sb: Super, b0: seq<Block>, b1: seq<Block>)
  {
    |b1| == |b0| && forall b: nat :: b < sb.bmapstart && b < |b0| ==> b1[b] == b0[b]
  }

  /** Writing back the one inode that changed. */
  lemma SyncedAgain(sb: Super, b0: seq<Block>, n0: Inodes, b1: seq<Block>, b2: seq<Block>, n2: Inodes, i: nat)
    requires SuperOk(sb) && |b0| == sb.size && InodesOk(sb, n0)
    requires Synced(sb, b0, n0) && SameInodeBlocks(sb, b0, b1)
    requires i in n0 && i in n2 && n2 == n0[i := n2[i]]
    requires IBlock(sb, i) < |b1| && |b2| == |b1| && b2 == b1[IBlock(sb, i) := b2[IBlock(sb, i)]]
    requires ReadInode(b2[IBlock(sb, i)], i % IPB) == n2[i]
    requires forall s: nat ::
               s < IPB && s != i % IPB ==> ReadInode(b2[IBlock(sb, i)], s) == ReadInode(b1[IBlock(sb, i)], s)
    ensures Synced(sb, b2, n2)
  {
    hide ReadInode;
    forall j: nat | j in n2 ensures SyncedAt(sb, b2, n2, j) {
      assert j in n0 && SyncedAt(sb, b0, n0, j);
      assert IBlock(sb, j) < sb.bmapstart;
      if j != i && IBlock(sb, j) == IBlock(sb, i) { assert j % IPB != i % IPB; }
    }
  }

  /** The sixteen words of an inode go to its place in the inode block. */
  method PutInode(d: Block, s: nat, ino: Inode) returns (r: Block)
    requires s < IPB && |ino.addrs| == NDIRECT + 1
    ensures ReadInode(r, s) == ino
    ensures forall s': nat :: s' < IPB && s' != s ==> ReadInode(r, s') == ReadInode(d, s')
  {
    hide Word;
    r := SetWord(d, 16 * s, ino.head.0);
    r := SetWord(r, 16 * s + 1, ino.head.1);
    r := SetWord(r, 16 * s + 2, ino.size);
    var k := 0;
    while k <= NDIRECT
      invariant k <= NDIRECT + 1 && |r| == BSIZE
      invariant Word(r, 16 * s) == ino.head.0 && Word(r, 16 * s + 1) == ino.head.1 && Word(r, 16 * s + 2) == ino.size
      invariant forall j: nat :: 16 * s + 3 <= j < 16 * s + 3 + k ==> Word(r, j) == ino.addrs[j - 16 * s - 3]
      invariant forall j: nat :: 4 * j + 4 <= BSIZE && !(16 * s <= j < 16 * s + 16) ==> Word(r, j) == Word(d, j)
    {
      r := SetWord(r, 16 * s + 3 + k, ino.addrs[k]);
      k := k + 1;
    }
    assert ReadInode(r, s).addrs == ino.addrs;
  }

  /** Writing a block of the inode area changes no file. */
  lemma WriteMeta(sb: Super, blocks: seq<Block>, inodes: Inodes, owner: map<nat, Slot>, c: nat, d: Block, i: nat)
    requires FsOk(sb, blocks, inodes, owner, {}) && c < sb.bmapstart
    ensures FsOk(sb, blocks[c := d], inodes, owner, {})
    ensures Kept(blocks, inodes, blocks[c := d], inodes, i, 0, 0)
  {
    MetaNotOwned(sb, blocks, inodes, owner, c);
    WriteKeeps(sb, blocks, inodes, owner, {}, c, d);
    forall j: nat, k: nat | j in inodes && k < NSLOT
      ensures SlotOf(blocks[c := d], inodes[j], k) == SlotOf(blocks, inodes[j], k)
    {
      SlotUnaffected(sb, blocks, inodes, owner, c, d, j, k);
    }
    forall v | v in owner ensures v < |blocks| && v != c { assert OwnerOk(sb, blocks, inodes, owner, v); }
    KeptBySlots(sb, blocks, inodes, owner, {}, blocks[c := d], inodes, i);
  }

  /** A step that keeps everything, before one that keeps all but lo..hi. */
  lemma KeptWiden(b0: seq<Block>, n0: Inodes, b1: seq<Block>, n1: Inodes, b2: seq<Block>, n2: Inodes, i: nat, lo: nat,
                  hi: nat)
    requires Kept(b0, n0, b1, n1, i, 0, 0) && Kept(b1, n1, b2, n2, i, lo, hi)
    ensures Kept(b0, n0, b2, n2, i, lo, hi)
  {
    forall j: nat, p: nat | j in n0 && p < MAXSIZE && BlockAt(b0, n0[j], p) != 0 && !(j == i && lo <= p < hi)
      ensures BlockAt(b2, n2[j], p) != 0 && ByteAt(b2, n2[j], p) == ByteAt(b0, n0[j], p)
    {
      assert BlockAt(b1, n1[j], p) != 0;
    }
  }

  /** ... and after one. */
  lemma KeptWidenBack(b0: seq<Block>, n0: Inodes, b1: seq<Block>, n1: Inodes, b2: seq<Block>, n2: Inodes, i: nat,
                      lo: nat, hi: nat)
    requires Kept(b0, n0, b1, n1, i, lo, hi) && Kept(b1, n1, b2, n2, i, 0, 0)
    ensures Kept(b0, n0, b2, n2, i, lo, hi)
  {
    forall j: nat, p: nat | j in n0 && p < MAXSIZE && BlockAt(b0, n0[j], p) != 0 && !(j == i && lo <= p < hi)
      ensures BlockAt(b2, n2[j], p) != 0 && ByteAt(b2, n2[j], p) == ByteAt(b0, n0[j], p)
    {
      assert BlockAt(b1, n1[j], p) != 0;
    }
  }

  lemma StoredKept(b1: seq<Block>, n: Inodes, b2: seq<Block>, i: nat, lo: nat, d: seq<byte>)
    requires i in n && Stored(b1, n[i], lo, d) && Kept(b1, n, b2, n, i, 0, 0) && lo + |d| <= MAXSIZE
    ensures Stored(b2, n[i], lo, d)
  {
  }

  /** The block map and the bytes of a file do not depend on its size. */
  lemma SizeOnly(blocks: seq<Block>, n1: Inodes, n2: Inodes, i: nat)
    requires i in n1 && i in n2 && n2 == n1[i := n1[i].(size := n2[i].size)]
    ensures forall j: nat, p: nat :: j in n1 ==>
              BlockAt(blocks, n2[j], p) == BlockAt(blocks, n1[j], p) &&
                  ByteAt(blocks, n2[j], p) == ByteAt(blocks, n1[j], p)
  {
  }

  // ---- Giving blocks back -----------------------------------------------

  /** The owners without the blocks of slots lo..hi of inode i. */
  ghost function Disowned(owner: map<nat, Slot>, i: nat, lo: nat, hi: nat): (r: map<nat, Slot>)
  {
    map b | b in owner && !(owner[b].0 == i && lo <= owner[b].1 < hi) :: owner[b]
  }

  /** Slot k owns exactly the block it names. */
  lemma DisownSlot(sb: Super, blocks: seq<Block>, inodes: Inodes, owner: map<nat, Slot>, i: nat, k: nat)
    requires FsOk(sb, blocks, inodes, owner, {}) && i in inodes && k < NSLOT
    ensures var v := SlotOf(blocks, inodes[i], k);
            Disowned(owner, i, k, k + 1) == if v == 0 then owner else owner - {v}
  {
    hide BitAt, Word;
    var v := SlotOf(blocks, inodes[i], k);
    assert SlotOk(blocks, inodes, owner, i, k);
    forall b | b in owner && owner[b] == (i, k) ensures b == v && v != 0 {
      assert OwnerOk(sb, blocks, inodes, owner, b);
    }
  }

  /** Clearing the bit of a loose block changes no file. */
  lemma FlipKept(sb: Super, blocks: seq<Block>, inodes: Inodes, owner: map<nat, Slot>, loose: set<nat>, b: nat, i: nat)
    requires FsOk(sb, blocks, inodes, owner, loose) && b in loose
    ensures b < sb.size && SameInodeBlocks(sb, blocks, Flipped(sb, blocks, b))
    ensures Kept(blocks, inodes, Flipped(sb, blocks, b), inodes, i, 0, 0)
    ensures forall c: nat :: sb.datastart <= c < sb.size ==> Flipped(sb, blocks, b)[c] == blocks[c]
  {
    var c := BBlock(sb, b);
    MetaNotOwned(sb, blocks, inodes, owner, c);
    var blocks' := Flipped(sb, blocks, b);
    forall j: nat, k: nat | j in inodes && k < NSLOT
      ensures SlotOf(blocks', inodes[j], k) == SlotOf(blocks, inodes[j], k)
    {
      SlotUnaffected(sb, blocks, inodes, owner, c, FlipBit(blocks[c], b % BPB), j, k);
    }
    forall v | v in owner ensures v < |blocks| && v != c { assert OwnerOk(sb, blocks, inodes, owner, v); }
    KeptBySlots(sb, blocks, inodes, owner, loose, blocks', inodes, i);
  }

  /** Changing one inode keeps the files of the others. */
  lemma AddrsOnly(blocks: seq<Block>, inodes: Inodes, i: nat, ino: Inode)
    requires i in inodes
    ensures Kept(blocks, inodes, blocks, inodes[i := ino], i, 0, MAXSIZE)
  {
  }

  lemma KeptAfter(b0: seq<Block>, n0: Inodes, n1: Inodes, b1: seq<Block>, i: nat)
    requires Kept(b0, n0, b0, n1, i, 0, MAXSIZE) && Kept(b0, n1, b1, n1, i, 0, 0)
    ensures Kept(b0, n0, b1, n1, i, 0, MAXSIZE)
  {
    KeptWidenBack(b0, n0, b0, n1, b1, n1, i, 0, MAXSIZE);
  }

  lemma KeptAll(blocks: seq<Block>, inodes: Inodes, i: nat)
    ensures Kept(blocks, inodes, blocks, inodes, i, 0, 0)
  {
  }

  lemma KeptTwice(b0: seq<Block>, n0: Inodes, b1: seq<Block>, n1: Inodes, b2: seq<Block>, n2: Inodes, i: nat)
    requires Kept(b0, n0, b1, n1, i, 0, MAXSIZE) && Kept(b1, n1, b2, n2, i, 0, MAXSIZE)
    ensures Kept(b0, n0, b2, n2, i, 0, MAXSIZE)
  {
    forall j: nat, p: nat | j in n0 && p < MAXSIZE && BlockAt(b0, n0[j], p) != 0 && j != i
      ensures BlockAt(b2, n2[j], p) != 0 && ByteAt(b2, n2[j], p) == ByteAt(b0, n0[j], p)
    {
      assert BlockAt(b1, n1[j], p) != 0;
    }
  }

  lemma DisownMore(owner: map<nat, Slot>, i: nat, lo: nat, mid: nat, hi: nat)
    requires lo <= mid <= hi
    ensures Disowned(Disowned(owner, i, lo, mid), i, mid, hi) == Disowned(owner, i, lo, hi)
  {
  }

  lemma DisownIndirect(sb: Super, blocks: seq<Block>, inodes: Inodes, owner: map<nat, Slot>, i: nat)
    requires FsOk(sb, blocks, inodes, owner, {}) && i in inodes
    ensures Disowned(owner, i, NDIRECT, NSLOT) ==
            if inodes[i].addrs[NDIRECT] == 0 then owner else owner - IndirectBlocks(owner, i)
    ensures 0 !in owner
  {
    hide BitAt, Word;
    forall b | b in owner && owner[b].0 == i && owner[b].1 >= NDIRECT
      ensures owner[b].1 < NSLOT && inodes[i].addrs[NDIRECT] != 0
    {
      assert OwnerOk(sb, blocks, inodes, owner, b);
    }
  }

  /** The non-zero words of the indirect block a are its owner's blocks other than itself. */
  ghost predicate EntriesMatch(a: Block, ind: nat, owner: map<nat, Slot>, i: nat)
  {
    && ind in owner && owner[ind] == (i, NDIRECT) && 0 !in owner
    && (forall j: nat :: j < NINDIRECT && Word(a, j) != 0 ==>
          Word(a, j) in owner && owner[Word(a, j)] == (i, NDIRECT + 1 + j))
    && (forall b :: b in IndirectBlocks(owner, i) && b != ind ==>
          var j := owner[b].1 - NDIRECT - 1; 0 <= j < NINDIRECT && Word(a, j) == b)
  }

  /** The indirect block and the entries from j on. */
  ghost function EntriesFrom(owner: map<nat, Slot>, i: nat, ind: nat, j: nat): (s: set<nat>)
  {
    set b | b in IndirectBlocks(owner, i) && (b == ind || owner[b].1 > NDIRECT + j)
  }

  lemma NextEntry(a: Block, ind: nat, owner: map<nat, Slot>, i: nat, j: nat)
    requires EntriesMatch(a, ind, owner, i) && j < NINDIRECT
    ensures Word(a, j) == 0 ==> EntriesFrom(owner, i, ind, j + 1) == EntriesFrom(owner, i, ind, j)
    ensures Word(a, j) != 0 ==>
              && Word(a, j) in EntriesFrom(owner, i, ind, j)
              && EntriesFrom(owner, i, ind, j + 1) == EntriesFrom(owner, i, ind, j) - {Word(a, j)}
  {
    hide Word;
    forall b | b in IndirectBlocks(owner, i) && b != ind && owner[b].1 == NDIRECT + 1 + j ensures Word(a, j) == b {
      assert owner[b].1 - NDIRECT - 1 == j;
    }
  }

  // ---- Block ownership --------------------------------------------------

  ghost predicate Names(blocks: seq<Block>, inodes: Inodes, i: nat, k: nat, b: nat)
  {
    i in inodes && k < NSLOT && SlotOf(blocks, inodes[i], k) == b
  }

  /** Between operations a data block is marked in the bitmap if and only if exactly one
      slot of one inode names it, and an unmarked one is named by none. */
  lemma MarkedIffNamedOnce(sb: Super, blocks: seq<Block>, inodes: Inodes, owner: map<nat, Slot>, b: nat)
    requires FsOk(sb, blocks, inodes, owner, {}) && sb.datastart <= b < sb.size
    ensures BitAt(sb, blocks, b) <==> exists i: nat, k: nat :: Names(blocks, inodes, i, k, b)
    ensures forall i: nat, k: nat, i': nat, k': nat ::
              Names(blocks, inodes, i, k, b) && Names(blocks, inodes, i', k', b) ==> i == i' && k == k'
  {
    hide Word;
    if BitAt(sb, blocks, b) {
      assert OwnerOk(sb, blocks, inodes, owner, b);
      assert Names(blocks, inodes, owner[b].0, owner[b].1, b);
    }
    forall i: nat, k: nat | Names(blocks, inodes, i, k, b) ensures b in owner && owner[b] == (i, k) {
      assert SlotOk(blocks, inodes, owner, i, k);
    }
  }
}
