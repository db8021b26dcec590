/** The on-disk layout of kernel/fs.c and who owns which data block.

    The disk is the logical disk that bread shows and log_write changes.
    Every inode has NSLOT slots that may name a data block: the NDIRECT direct
    addresses, the indirect block, and the NINDIRECT entries of the indirect
    block.  `owner` maps each data block in use to the one slot that names it;
    `loose` blocks are marked in the bitmap while no slot names them, between
    balloc and the store into a slot, or between the end of a slot and bfree.
 */
module FsLayout {
  import opened Words
  import opened BufferCache

  const NDIRECT: nat := 12
  const NINDIRECT: nat := 256  // BSIZE / sizeof(uint)
  const MAXFILE: nat := 268    // NDIRECT + NINDIRECT
  const NSLOT: nat := 269      // MAXFILE and the indirect block
  const BPB: nat := 8192       // BSIZE * 8
  const IPB: nat := 16         // BSIZE / sizeof(struct dinode)

  /** The areas of the disk in order: boot block and superblock, log, inodes, bitmap, data. */
  datatype Super = Super(size: nat, ninodes: nat, inodestart: nat, bmapstart: nat, datastart: nat)

  predicate SuperOk(sb: Super)
  {
    && sb.inodestart + sb.ninodes / IPB + 1 <= sb.bmapstart
    && sb.bmapstart + sb.size / BPB + 1 <= sb.datastart <= sb.size < U32
    && sb.datastart > 0
  }

  /** In-memory inode: the dinode fields.  `head` is type, major, minor and nlink. */
  datatype Inode = Inode(head: (uint32, uint32), size: uint32, addrs: seq<uint32>)

  type Inodes = map<nat, Inode>

  type Slot = (nat, nat)

  function BBlock(sb: Super, b: nat): (bb: nat)
  {
    b / BPB + sb.bmapstart
  }

  predicate BitAt(sb: Super, blocks: seq<Block>, b: nat)
    requires BBlock(sb, b) < |blocks|
  {
    Bit(blocks[BBlock(sb, b)], b % BPB)
  }

  /** The block number in slot k of an inode; 0 when there is none. */
  function SlotOf(blocks: seq<Block>, ino: Inode, k: nat): (v: nat)
  {
    if |ino.addrs| != NDIRECT + 1 || k >= NSLOT then 0
    else if k <= NDIRECT then ino.addrs[k]
    else if 0 < ino.addrs[NDIRECT] < |blocks| then Word(blocks[ino.addrs[NDIRECT]], k - NDIRECT - 1)
    else 0
  }

  /** The slot that holds the n-th block of a file. */
  function FileSlot(bn: nat): (k: nat)
  {
    if bn < NDIRECT then bn else bn + 1
  }

  ghost predicate InodesOk(sb: Super, inodes: Inodes)
  {
    forall i :: i in inodes ==> i < sb.ninodes && |inodes[i].addrs| == NDIRECT + 1
  }

  ghost predicate SlotOk(blocks: seq<Block>, inodes: Inodes, owner: map<nat, Slot>, i: nat, k: nat)
    requires i in inodes
  {
    var v := SlotOf(blocks, inodes[i], k);
    v == 0 || (v in owner && owner[v] == (i, k))
  }

  /** A named block is owned by the slot that names it: no block has two names. */
  ghost predicate SlotsOk(blocks: seq<Block>, inodes: Inodes, owner: map<nat, Slot>)
  {
    forall i: nat, k: nat :: i in inodes && k < NSLOT ==> SlotOk(blocks, inodes, owner, i, k)
  }

  ghost predicate OwnerOk(sb: Super, blocks: seq<Block>, inodes: Inodes, owner: map<nat, Slot>, b: nat)
    requires b in owner
  {
    && sb.datastart <= b < sb.size
    && owner[b].0 in inodes && owner[b].1 < NSLOT
    && SlotOf(blocks, inodes[owner[b].0], owner[b].1) == b
  }

  /** An owned block is a data block and is named by its owner. */
  ghost predicate OwnersOk(sb: Super, blocks: seq<Block>, inodes: Inodes, owner: map<nat, Slot>)
  {
    forall b :: b in owner ==> OwnerOk(sb, blocks, inodes, owner, b)
  }

  /** The bitmap marks the blocks before the data area, the owned and the loose blocks. */
  ghost predicate BitsOk(sb: Super, blocks: seq<Block>, owner: map<nat, Slot>, loose: set<nat>)
    requires SuperOk(sb) && |blocks| == sb.size
  {
    forall b: nat :: b < sb.size ==> (BitAt(sb, blocks, b) <==> b < sb.datastart || b in owner || b in loose)
  }

  ghost predicate LooseOk(sb: Super, owner: map<nat, Slot>, loose: set<nat>)
  {
    loose !! owner.Keys && forall b :: b in loose ==> sb.datastart <= b < sb.size
  }

  ghost predicate FsOk(sb: Super, blocks: seq<Block>, inodes: Inodes, owner: map<nat, Slot>, loose: set<nat>)
    ensures FsOk(sb, blocks, inodes, owner, loose) ==> SuperOk(sb) && |blocks| == sb.size && InodesOk(sb, inodes)
  {
    && SuperOk(sb) && |blocks| == sb.size && InodesOk(sb, inodes)
    && SlotsOk(blocks, inodes, owner) && OwnersOk(sb, blocks, inodes, owner)
    && BitsOk(sb, blocks, owner, loose) && LooseOk(sb, owner, loose)
  }

  // ---- Allocating and freeing -------------------------------------------

  /** Changing a block that is not an indirect block leaves all slots alone. */
  lemma SlotUnaffected(sb: Super, blocks: seq<Block>, inodes: Inodes, owner: map<nat, Slot>, c: nat, d: Block, i: nat,
                       k: nat)
    requires SlotsOk(blocks, inodes, owner) && InodesOk(sb, inodes)
    requires c < |blocks| && (c in owner ==> owner[c].1 != NDIRECT)
    requires i in inodes && k < NSLOT
    ensures SlotOf(blocks[c := d], inodes[i], k) == SlotOf(blocks, inodes[i], k)
  {
    assert SlotOk(blocks, inodes, owner, i, NDIRECT);
  }

  lemma SlotsCarry(sb: Super, blocks: seq<Block>, inodes: Inodes, owner: map<nat, Slot>, c: nat, d: Block)
    requires SlotsOk(blocks, inodes, owner) && OwnersOk(sb, blocks, inodes, owner) && InodesOk(sb, inodes)
    requires c < |blocks| && (c in owner ==> owner[c].1 != NDIRECT)
    ensures SlotsOk(blocks[c := d], inodes, owner) && OwnersOk(sb, blocks[c := d], inodes, owner)
  {
    var blocks' := blocks[c := d];
    forall i: nat, k: nat | i in inodes && k < NSLOT ensures SlotOk(blocks', inodes, owner, i, k) {
      SlotUnaffected(sb, blocks, inodes, owner, c, d, i, k);
      assert SlotOk(blocks, inodes, owner, i, k);
    }
    forall b | b in owner ensures OwnerOk(sb, blocks', inodes, owner, b) {
      assert OwnerOk(sb, blocks, inodes, owner, b);
      SlotUnaffected(sb, blocks, inodes, owner, c, d, owner[b].0, owner[b].1);
    }
  }

  /** The bitmap block of b with its bit flipped. */
  function Flipped(sb: Super, blocks: seq<Block>, b: nat): (r: seq<Block>)
    requires SuperOk(sb) && |blocks| == sb.size && b < sb.size
    ensures |r| == |blocks|
  {
    blocks[BBlock(sb, b) := FlipBit(blocks[BBlock(sb, b)], b % BPB)]
  }

  lemma FlippedBits(sb: Super, blocks: seq<Block>, b: nat)
    requires SuperOk(sb) && |blocks| == sb.size && b < sb.size
    ensures forall x: nat :: x < sb.size ==>
              BitAt(sb, Flipped(sb, blocks, b), x) == if x == b then !BitAt(sb, blocks, b) else BitAt(sb, blocks, x)
  {
    forall x: nat | x < sb.size
      ensures BitAt(sb, Flipped(sb, blocks, b), x) == if x == b then !BitAt(sb, blocks, b) else BitAt(sb, blocks, x)
    {
      if x != b && BBlock(sb, x) == BBlock(sb, b) { assert x % BPB != b % BPB; }
    }
  }

  lemma FlipKeepsSlots(sb: Super, blocks: seq<Block>, inodes: Inodes, owner: map<nat, Slot>, loose: set<nat>, b: nat)
    requires FsOk(sb, blocks, inodes, owner, loose) && b < sb.size
    ensures SlotsOk(Flipped(sb, blocks, b), inodes, owner) && OwnersOk(sb, Flipped(sb, blocks, b), inodes, owner)
  {
    var c := BBlock(sb, b);
    assert c in owner ==> OwnerOk(sb, blocks, inodes, owner, c);
    SlotsCarry(sb, blocks, inodes, owner, c, FlipBit(blocks[c], b % BPB));
  }

  /** Writing a block outside the bitmap that is not an indirect block. */
  lemma WriteKeeps(sb: Super, blocks: seq<Block>, inodes: Inodes, owner: map<nat, Slot>, loose: set<nat>, c: nat,
                   d: Block)
    requires FsOk(sb, blocks, inodes, owner, loose)
    requires c < sb.size && !(sb.bmapstart <= c < sb.datastart) && (c in owner ==> owner[c].1 != NDIRECT)
    ensures FsOk(sb, blocks[c := d], inodes, owner, loose)
  {
    SlotsCarry(sb, blocks, inodes, owner, c, d);
    BitsCarry(sb, blocks, owner, loose, c, d);
  }

  lemma BitsCarry(sb: Super, blocks: seq<Block>, owner: map<nat, Slot>, loose: set<nat>, c: nat, d: Block)
    requires SuperOk(sb) && |blocks| == sb.size && BitsOk(sb, blocks, owner, loose)
    requires c < sb.size && !(sb.bmapstart <= c < sb.datastart)
    ensures BitsOk(sb, blocks[c := d], owner, loose)
  {
    hide Bit;
    var blocks' := blocks[c := d];
    forall b: nat | b < sb.size ensures BitAt(sb, blocks', b) == BitAt(sb, blocks, b) {
      assert sb.bmapstart <= BBlock(sb, b) < sb.datastart;
    }
  }

  lemma BallocKeeps(sb: Super, blocks: seq<Block>, inodes: Inodes, owner: map<nat, Slot>, loose: set<nat>, b: nat)
    requires FsOk(sb, blocks, inodes, owner, loose) && b < sb.size && !BitAt(sb, blocks, b)
    ensures sb.datastart <= b && b !in owner && b !in loose
    ensures FsOk(sb, Flipped(sb, blocks, b)[b := Zeroes(BSIZE)], inodes, owner, loose + {b})
  {
    FlippedBits(sb, blocks, b);
    FlipKeepsSlots(sb, blocks, inodes, owner, loose, b);
    WriteKeeps(sb, Flipped(sb, blocks, b), inodes, owner, loose + {b}, b, Zeroes(BSIZE));
  }

  lemma BfreeKeeps(sb: Super, blocks: seq<Block>, inodes: Inodes, owner: map<nat, Slot>, loose: set<nat>, b: nat)
    requires FsOk(sb, blocks, inodes, owner, loose) && b in loose
    ensures b < sb.size && BitAt(sb, blocks, b)
    ensures FsOk(sb, Flipped(sb, blocks, b), inodes, owner, loose - {b})
  {
    FlippedBits(sb, blocks, b);
    FlipKeepsSlots(sb, blocks, inodes, owner, loose, b);
  }

  // ---- Slots ------------------------------------------------------------

  function SetAddr(ino: Inode, k: nat, v: uint32): (r: Inode)
    requires |ino.addrs| == NDIRECT + 1 && k <= NDIRECT
  {
    ino.(addrs := ino.addrs[k := v])
  }

  /** Block b becomes address k of inode i. */
  lemma AttachDirect(sb: Super, blocks: seq<Block>, inodes: Inodes, owner: map<nat, Slot>, loose: set<nat>,
                     i: nat, k: nat, b: nat)
    requires FsOk(sb, blocks, inodes, owner, loose) && b in loose
    requires i in inodes && k <= NDIRECT && inodes[i].addrs[k] == 0
    requires k == NDIRECT ==> blocks[b] == Zeroes(BSIZE)
    ensures FsOk(sb, blocks, inodes[i := SetAddr(inodes[i], k, b)], owner[b := (i, k)], loose - {b})
    ensures forall j: nat :: j < NSLOT && j != k ==>
              SlotOf(blocks, SetAddr(inodes[i], k, b), j) == SlotOf(blocks, inodes[i], j)
  {
    var inodes', owner' := inodes[i := SetAddr(inodes[i], k, b)], owner[b := (i, k)];
    forall j: nat | j < NSLOT && j != k
      ensures SlotOf(blocks, SetAddr(inodes[i], k, b), j) == SlotOf(blocks, inodes[i], j)
    {
    }
    forall i': nat, j: nat | i' in inodes' && j < NSLOT ensures SlotOk(blocks, inodes', owner', i', j) {
      if (i', j) != (i, k) { assert SlotOk(blocks, inodes, owner, i', j); }
    }
    forall c | c in owner' ensures OwnerOk(sb, blocks, inodes', owner', c) {
      if c != b { assert OwnerOk(sb, blocks, inodes, owner, c); }
    }
  }

  /** Block b becomes entry j of the indirect block of inode i. */
  lemma AttachEntry(sb: Super, blocks: seq<Block>, inodes: Inodes, owner: map<nat, Slot>, loose: set<nat>,
                    i: nat, j: nat, b: nat)
    requires FsOk(sb, blocks, inodes, owner, loose) && b in loose
    requires i in inodes && j < NINDIRECT
    requires SlotOf(blocks, inodes[i], NDIRECT) != 0 && SlotOf(blocks, inodes[i], NDIRECT + 1 + j) == 0
    ensures var ind := inodes[i].addrs[NDIRECT];
            && ind in owner && owner[ind] == (i, NDIRECT) && sb.datastart <= ind < sb.size
            && FsOk(sb, blocks[ind := SetWord(blocks[ind], j, b)], inodes, owner[b := (i, NDIRECT + 1 + j)],
                loose - {b})
            && forall k: nat :: k < NSLOT && k != NDIRECT + 1 + j ==>
                 SlotOf(blocks[ind := SetWord(blocks[ind], j, b)], inodes[i], k) == SlotOf(blocks, inodes[i], k)
  {
    hide Word;
    var ind := inodes[i].addrs[NDIRECT];
    assert SlotOk(blocks, inodes, owner, i, NDIRECT);
    assert OwnerOk(sb, blocks, inodes, owner, ind);
    var blocks', owner' := blocks[ind := SetWord(blocks[ind], j, b)], owner[b := (i, NDIRECT + 1 + j)];
    forall i': nat, k: nat | i' in inodes && k < NSLOT && (i', k) != (i, NDIRECT + 1 + j)
      ensures SlotOf(blocks', inodes[i'], k) == SlotOf(blocks, inodes[i'], k)
    {
      assert SlotOk(blocks, inodes, owner, i', NDIRECT);
    }
    BitsCarry(sb, blocks, owner, loose, ind, SetWord(blocks[ind], j, b));
    EntryAttached(sb, blocks, blocks', inodes, owner, loose, i, j, b);
  }

  lemma EntryAttached(sb: Super, blocks: seq<Block>, blocks': seq<Block>, inodes: Inodes, owner: map<nat, Slot>,
                      loose: set<nat>, i: nat, j: nat, b: nat)
    requires FsOk(sb, blocks, inodes, owner, loose) && b in loose && i in inodes && j < NINDIRECT
    requires |blocks'| == |blocks| && BitsOk(sb, blocks', owner, loose)
    requires SlotOf(blocks', inodes[i], NDIRECT + 1 + j) == b && SlotOf(blocks, inodes[i], NDIRECT + 1 + j) == 0
    requires forall i': nat, k: nat :: i' in inodes && k < NSLOT && (i', k) != (i, NDIRECT + 1 + j) ==>
               SlotOf(blocks', inodes[i'], k) == SlotOf(blocks, inodes[i'], k)
    ensures FsOk(sb, blocks', inodes, owner[b := (i, NDIRECT + 1 + j)], loose - {b})
  {
    hide Word, BitAt;
    var owner' := owner[b := (i, NDIRECT + 1 + j)];
    forall i': nat, k: nat | i' in inodes && k < NSLOT ensures SlotOk(blocks', inodes, owner', i', k) {
      if (i', k) != (i, NDIRECT + 1 + j) { assert SlotOk(blocks, inodes, owner, i', k); }
    }
    forall c | c in owner' ensures OwnerOk(sb, blocks', inodes, owner', c) {
      if c != b {
        assert OwnerOk(sb, blocks, inodes, owner, c);
        assert SlotOf(blocks', inodes[owner[c].0], owner[c].1) == c;
      }
    }
  }

  /** Inode i gives up direct block k. */
  lemma DetachDirect(sb: Super, blocks: seq<Block>, inodes: Inodes, owner: map<nat, Slot>, loose: set<nat>, i: nat,
                     k: nat)
    requires FsOk(sb, blocks, inodes, owner, loose)
    requires i in inodes && k < NDIRECT && inodes[i].addrs[k] != 0
    ensures var v := inodes[i].addrs[k];
            && v in owner && owner[v] == (i, k)
            && FsOk(sb, blocks, inodes[i := SetAddr(inodes[i], k, 0)], owner - {v}, loose + {v})
  {
    var v := inodes[i].addrs[k];
    assert SlotOk(blocks, inodes, owner, i, k);
    var inodes', owner' := inodes[i := SetAddr(inodes[i], k, 0)], owner - {v};
    assert OwnerOk(sb, blocks, inodes, owner, v);
    forall i': nat, j: nat | i' in inodes' && j < NSLOT ensures SlotOk(blocks, inodes', owner', i', j) {
      assert SlotOk(blocks, inodes, owner, i', j);
    }
    forall c | c in owner' ensures OwnerOk(sb, blocks, inodes', owner', c) {
      assert OwnerOk(sb, blocks, inodes, owner, c);
    }
  }

  /** The blocks reached through the indirect slot of inode i, and the indirect block itself. */
  ghost function IndirectBlocks(owner: map<nat, Slot>, i: nat): (s: set<nat>)
  {
    set b | b in owner && owner[b].0 == i && owner[b].1 >= NDIRECT
  }

  /** Inode i gives up its indirect block. */
  lemma DetachIndirect(sb: Super, blocks: seq<Block>, inodes: Inodes, owner: map<nat, Slot>, loose: set<nat>, i: nat)
    requires FsOk(sb, blocks, inodes, owner, loose)
    requires i in inodes && inodes[i].addrs[NDIRECT] != 0
    ensures inodes[i].addrs[NDIRECT] in IndirectBlocks(owner, i)
    ensures FsOk(sb, blocks, inodes[i := SetAddr(inodes[i], NDIRECT, 0)], owner - IndirectBlocks(owner, i),
                 loose + IndirectBlocks(owner, i))
  {
    var gone := IndirectBlocks(owner, i);
    assert SlotOk(blocks, inodes, owner, i, NDIRECT);
    var inodes', owner' := inodes[i := SetAddr(inodes[i], NDIRECT, 0)], owner - gone;
    forall i': nat, j: nat | i' in inodes' && j < NSLOT ensures SlotOk(blocks, inodes', owner', i', j) {
      assert SlotOk(blocks, inodes, owner, i', j);
    }
    forall c | c in owner' ensures OwnerOk(sb, blocks, inodes', owner', c) {
      assert OwnerOk(sb, blocks, inodes, owner, c);
    }
    forall b | b in gone ensures sb.datastart <= b < sb.size {
      assert OwnerOk(sb, blocks, inodes, owner, b);
    }
  }

  /** An entry of the indirect block is one of the indirect blocks, and all but the
      indirect block itself are entries. */
  lemma IndirectEntries(sb: Super, blocks: seq<Block>, inodes: Inodes, owner: map<nat, Slot>, loose: set<nat>, i: nat)
    requires FsOk(sb, blocks, inodes, owner, loose)
    requires i in inodes && inodes[i].addrs[NDIRECT] != 0
    ensures inodes[i].addrs[NDIRECT] < sb.size
    ensures var ind := inodes[i].addrs[NDIRECT];
            && (forall j: nat :: j < NINDIRECT && Word(blocks[ind], j) != 0 ==>
                  Word(blocks[ind], j) in owner && owner[Word(blocks[ind], j)] == (i, NDIRECT + 1 + j))
            && (forall b :: b in IndirectBlocks(owner, i) && b != ind ==>
                  var j := owner[b].1 - NDIRECT - 1; 0 <= j < NINDIRECT && Word(blocks[ind], j) == b)
  {
    var ind := inodes[i].addrs[NDIRECT];
    assert SlotOk(blocks, inodes, owner, i, NDIRECT);
    assert OwnerOk(sb, blocks, inodes, owner, ind);
    forall j: nat | j < NINDIRECT && Word(blocks[ind], j) != 0
      ensures Word(blocks[ind], j) in owner && owner[Word(blocks[ind], j)] == (i, NDIRECT + 1 + j)
    {
      assert SlotOk(blocks, inodes, owner, i, NDIRECT + 1 + j);
    }
    forall b | b in IndirectBlocks(owner, i) && b != ind
      ensures var j := owner[b].1 - NDIRECT - 1; 0 <= j < NINDIRECT && Word(blocks[ind], j) == b
    {
      assert OwnerOk(sb, blocks, inodes, owner, b);
    }
  }
}
