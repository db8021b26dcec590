/** Block allocation and inode content of kernel/fs.c.

    `blocks` is the logical disk: bread reads it, and a modification followed
    by log_write replaces one block, adds its number to `logged`, and is
    recorded in `trace`.  A panic for lack of free blocks is the result None.
 */
module FileSystem {
  import opened Words
  import opened Counting
  import opened BufferCache
  import opened LogSpec
  import opened FsLayout
  import opened FileContent
  import opened Wrappers

  class FileSystem {
    const sb: Super
    var blocks: seq<Block>
    var inodes: Inodes
    ghost var owner: map<nat, Slot>
    ghost var logged: set<nat>
    var trace: seq<(nat, Block)>  // the log_writes of the transaction, in order

    constructor (sb: Super, image: seq<Block>, inodes: Inodes, ghost owner: map<nat, Slot>)
      requires FsOk(sb, image, inodes, owner, {})
      ensures this.sb == sb && blocks == image && this.inodes == inodes && this.owner == owner && logged == {} &&
                trace == []
    {
      this.sb, blocks, this.inodes, this.owner, logged, trace := sb, image, inodes, owner, {}, [];
    }

    /** Modify the buffer of block b and hand it to log_write. */
    method LogWrite(b: nat, d: Block)
      requires b < |blocks|
      modifies this`blocks, this`logged, this`trace
      ensures blocks == old(blocks)[b := d] && logged == old(logged) + {b} && trace == old(trace) + [(b, d)]
    {
      blocks := blocks[b := d];
      logged := logged + {b};
      trace := trace + [(b, d)];
    }

    /** begin_op: a new transaction, nothing logged yet. */
    method BeginOp()
      modifies this`logged, this`trace
      ensures logged == {} && trace == []
    {
      logged, trace := {}, [];
    }

    /** balloc's scan of one bitmap block. */
    method ScanBlock(b: nat) returns (bi: nat)
      requires SuperOk(sb) && |blocks| == sb.size && b < sb.size && b % BPB == 0
      ensures bi <= BPB && b + bi <= sb.size
      ensures forall x: nat :: b <= x < b + bi ==> BitAt(sb, blocks, x)
      ensures bi < BPB && b + bi < sb.size ==> !BitAt(sb, blocks, b + bi)
    {
      var data := blocks[BBlock(sb, b)];
      bi := 0;
      while bi < BPB && b + bi < sb.size
        invariant bi <= BPB && b + bi <= sb.size
        invariant forall x: nat :: b <= x < b + bi ==> BitAt(sb, blocks, x)
      {
        assert BBlock(sb, b + bi) == BBlock(sb, b) && (b + bi) % BPB == bi;
        if !Bit(data, bi) { return; }
        bi := bi + 1;
      }
    }

    /** Set the bit of a free block, log the bitmap block, and bzero the block. */
    method Claim(b: nat, ghost loose: set<nat>)
      requires FsOk(sb, blocks, inodes, owner, loose) && b < sb.size && !BitAt(sb, blocks, b)
      modifies this`blocks, this`logged, this`trace
      ensures blocks == Flipped(sb, old(blocks), b)[b := Zeroes(BSIZE)]
      ensures logged == old(logged) + {BBlock(sb, b), b}
      ensures FsOk(sb, blocks, inodes, owner, loose + {b})
      ensures Logs(sb, old(blocks), old(trace), old(logged), blocks, trace, logged)
    {
      hide FsOk, BitAt;
      BallocKeeps(sb, blocks, inodes, owner, loose, b);
      LogWrite(BBlock(sb, b), FlipBit(blocks[BBlock(sb, b)], b % BPB));
      LogsOne(sb, old(blocks), old(trace), old(logged), blocks, trace, logged);
      ghost var b1, t1, l1 := blocks, trace, logged;
      LogWrite(b, Zeroes(BSIZE));
      LogsOne(sb, b1, t1, l1, blocks, trace, logged);
      LogsTwice(sb, old(blocks), old(trace), old(logged), b1, t1, l1, blocks, trace, logged);
    }

    /** The first free block, zeroed and marked in use. */
    method Balloc(ghost loose: set<nat>) returns (r: Option<nat>)
      requires FsOk(sb, blocks, inodes, owner, loose)
      modifies this`blocks, this`logged, this`trace
      ensures r.None? ==>
                && blocks == old(blocks) && logged == old(logged)
                && forall x: nat :: x < sb.size ==> BitAt(sb, blocks, x)
      ensures r.Some? ==>
                && r.value < sb.size && !BitAt(sb, old(blocks), r.value)
                && (forall x: nat :: x < r.value ==> BitAt(sb, old(blocks), x))
                && blocks == Flipped(sb, old(blocks), r.value)[r.value := Zeroes(BSIZE)]
                && logged == old(logged) + {BBlock(sb, r.value), r.value}
                && FsOk(sb, blocks, inodes, owner, loose + {r.value})
      ensures Logs(sb, old(blocks), old(trace), old(logged), blocks, trace, logged)
    {
      hide FsOk, BitAt, Logs;
      LogsNone(sb, blocks, trace, logged);
      var b := 0;
      while b < sb.size
        invariant b % BPB == 0 && blocks == old(blocks) && logged == old(logged) && trace == old(trace)
        invariant forall x: nat :: x < b && x < sb.size ==> BitAt(sb, blocks, x)
        decreases sb.size - b
      {
        var bi := ScanBlock(b);
        if bi < BPB && b + bi < sb.size {
          Claim(b + bi, loose);
          return Some(b + bi);
        }
        b := b + BPB;
      }
      r := None;
    }

    /** Freeing a free block would panic; a loose block is always marked. */
    method Bfree(b: nat, ghost inodes': Inodes, ghost owner': map<nat, Slot>, ghost loose: set<nat>)
      requires FsOk(sb, blocks, inodes', owner', loose) && b in loose
      modifies this`blocks, this`logged, this`trace
      ensures BitAt(sb, old(blocks), b)
      ensures blocks == Flipped(sb, old(blocks), b) && logged == old(logged) + {BBlock(sb, b)}
      ensures FsOk(sb, blocks, inodes', owner', loose - {b})
    {
      BfreeKeeps(sb, blocks, inodes', owner', loose, b);
      var bi := b % BPB;
      if !Bit(blocks[BBlock(sb, b)], bi) {
        assert false;
      }
      LogWrite(BBlock(sb, b), FlipBit(blocks[BBlock(sb, b)], bi));
    }

    /** The block in address k of inode i, allocated if there was none. */
    method FillAddr(i: nat, k: nat) returns (r: Option<nat>)
      requires FsOk(sb, blocks, inodes, owner, {}) && i in inodes && k <= NDIRECT
      modifies this
      ensures FsOk(sb, blocks, inodes, owner, {}) && SameInodeBlocks(sb, old(blocks), blocks)
      ensures r.None? ==>
                && blocks == old(blocks) && inodes == old(inodes) && logged == old(logged)
                && forall x: nat :: x < sb.size ==> BitAt(sb, blocks, x)
      ensures r.Some? ==> r.value < sb.size && inodes == old(inodes)[i := SetAddr(old(inodes)[i], k, r.value)]
      ensures r.Some? ==> r.value != 0
      ensures Kept(old(blocks), old(inodes), blocks, inodes, i, 0, 0)
      ensures old(inodes)[i].addrs[k] != 0 ==>
                r.Some? && r.value == old(inodes)[i].addrs[k] && unchanged(this)
      ensures r.Some? && old(inodes)[i].addrs[k] == 0 ==>
                blocks[r.value] == Zeroes(BSIZE) && logged == old(logged) + {BBlock(sb, r.value), r.value}
      ensures Logs(sb, old(blocks), old(trace), old(logged), blocks, trace, logged)
    {
      hide FsOk, BitAt, Logs;
      LogsNone(sb, blocks, trace, logged);
      var addr := inodes[i].addrs[k];
      if addr != 0 {
        assert inodes[i] == SetAddr(inodes[i], k, addr);
        SlotInRange(sb, blocks, inodes, owner, {}, i, k);
        return Some(addr);
      }
      r := Balloc({});
      if r.None? { return; }
      AllocAddr(sb, old(blocks), inodes, owner, i, k, r.value);
      inodes := inodes[i := SetAddr(inodes[i], k, r.value)];
      owner := owner[r.value := (i, k)];
    }

    /** a[e] of the indirect block, allocated if it was zero. */
    method FillEntry(i: nat, e: nat) returns (r: Option<nat>)
      requires FsOk(sb, blocks, inodes, owner, {}) && i in inodes && e < NINDIRECT && inodes[i].addrs[NDIRECT] != 0
      modifies this
      ensures FsOk(sb, blocks, inodes, owner, {}) && SameInodeBlocks(sb, old(blocks), blocks) && inodes == old(inodes)
      ensures r.None? ==>
                && blocks == old(blocks) && logged == old(logged)
                && forall x: nat :: x < sb.size ==> BitAt(sb, blocks, x)
      ensures r.Some? ==> 0 < r.value < sb.size && SlotOf(blocks, inodes[i], NDIRECT + 1 + e) == r.value
      ensures Kept(old(blocks), inodes, blocks, inodes, i, 0, 0)
      ensures SlotOf(old(blocks), inodes[i], NDIRECT + 1 + e) != 0 ==> r.Some? && unchanged(this)
      ensures r.Some? && SlotOf(old(blocks), inodes[i], NDIRECT + 1 + e) == 0 ==>
                blocks[r.value] == Zeroes(BSIZE) &&
                logged == old(logged) + {BBlock(sb, r.value), r.value, inodes[i].addrs[NDIRECT]}
      ensures Logs(sb, old(blocks), old(trace), old(logged), blocks, trace, logged)
    {
      hide FsOk, BitAt, Word, Logs;
      LogsNone(sb, blocks, trace, logged);
      var ind := inodes[i].addrs[NDIRECT];
      SlotInRange(sb, blocks, inodes, owner, {}, i, NDIRECT);
      var addr := Word(blocks[ind], e);
      if addr != 0 {
        SlotInRange(sb, blocks, inodes, owner, {}, i, NDIRECT + 1 + e);
        return Some(addr);
      }
      r := Balloc({});
      if r.None? { return; }
      AllocEntry(sb, old(blocks), inodes, owner, i, e, r.value);
      ghost var b1, t1, l1 := blocks, trace, logged;
      LogWrite(ind, SetWord(blocks[ind], e, r.value));
      LogsOne(sb, b1, t1, l1, blocks, trace, logged);
      LogsTwice(sb, old(blocks), old(trace), old(logged), b1, t1, l1, blocks, trace, logged);
      owner := owner[r.value := (i, NDIRECT + 1 + e)];
    }

    /** The disk block of the bn-th block of inode i, allocated on the way if there is none. */
    method Bmap(i: nat, bn: nat) returns (r: Option<nat>)
      requires FsOk(sb, blocks, inodes, owner, {}) && i in inodes && bn < MAXFILE
      modifies this
      ensures FsOk(sb, blocks, inodes, owner, {}) && SameInodeBlocks(sb, old(blocks), blocks)
      ensures SameButAddrs(old(inodes), inodes, i)
      ensures Kept(old(blocks), old(inodes), blocks, inodes, i, 0, 0)
      ensures r.None? ==> forall x: nat :: x < sb.size ==> BitAt(sb, blocks, x)
      ensures r.Some? ==> 0 < r.value < sb.size && SlotOf(blocks, inodes[i], FileSlot(bn)) == r.value
      ensures SlotOf(old(blocks), old(inodes)[i], FileSlot(bn)) != 0 ==> r.Some? && unchanged(this)
      ensures r.Some? && SlotOf(old(blocks), old(inodes)[i], FileSlot(bn)) == 0 ==>
                && blocks[r.value] == Zeroes(BSIZE)
                && logged <= old(logged) + {r.value, BBlock(sb, r.value)} + IndirectLog(sb, inodes[i])
      ensures old(inodes)[i].addrs[NDIRECT] != 0 ==> inodes[i].addrs[NDIRECT] == old(inodes)[i].addrs[NDIRECT]
      ensures Logs(sb, old(blocks), old(trace), old(logged), blocks, trace, logged)
    {
      hide FsOk, BitAt, Word, Logs;
      if bn < NDIRECT {
        r := FillAddr(i, bn);
        return;
      }
      var e := bn - NDIRECT;
      r := FillAddr(i, NDIRECT);
      if r.None? { return; }
      ghost var b1, n1, t1, l1 := blocks, inodes, trace, logged;
      r := FillEntry(i, e);
      LogsTwice(sb, old(blocks), old(trace), old(logged), b1, t1, l1, blocks, trace, logged);
      KeptCompose(old(blocks), old(inodes), b1, n1, blocks, inodes, i, 0, 0, 0);
    }

    /** Copy the in-memory inode to its place in its inode block. */
    method Iupdate(i: nat)
      requires FsOk(sb, blocks, inodes, owner, {}) && i in inodes
      modifies this`blocks, this`logged, this`trace
      ensures IBlock(sb, i) < sb.bmapstart && |blocks| == |old(blocks)| == sb.size
      ensures blocks == old(blocks)[IBlock(sb, i) := blocks[IBlock(sb, i)]] && logged == old(logged) + {IBlock(sb, i)}
      ensures FsOk(sb, blocks, inodes, owner, {}) && Kept(old(blocks), inodes, blocks, inodes, i, 0, 0)
      ensures ReadInode(blocks[IBlock(sb, i)], i % IPB) == inodes[i]
      ensures forall s: nat :: s < IPB && s != i % IPB ==>
                ReadInode(blocks[IBlock(sb, i)], s) == ReadInode(old(blocks)[IBlock(sb, i)], s)
      ensures Logs(sb, old(blocks), old(trace), old(logged), blocks, trace, logged)
    {
      hide FsOk;
      var c := IBlock(sb, i);
      assert c < sb.bmapstart;
      var d := PutInode(blocks[c], i % IPB, inodes[i]);
      WriteMeta(sb, blocks, inodes, owner, c, d, i);
      LogWrite(c, d);
      LogsOne(sb, old(blocks), old(trace), old(logged), blocks, trace, logged);
    }

    /** One iteration of writei: map the block, copy the bytes, and log it unless the copy failed. */
    method WriteChunk(i: nat, off: nat, data: seq<byte>, ok: bool) returns (done: bool)
      requires FsOk(sb, blocks, inodes, owner, {}) && i in inodes
      requires off < MAXSIZE && off % BSIZE + |data| <= BSIZE
      modifies this
      ensures FsOk(sb, blocks, inodes, owner, {})
      ensures !done ==> forall x: nat :: x < sb.size ==> BitAt(sb, blocks, x)
      ensures done ==>
                && Progress(sb, old(blocks), old(inodes), blocks, inodes, i, off, data)
                && logged <= old(logged) + ChunkLog(sb, old(blocks), old(inodes)[i], blocks, inodes[i], off)
                             + IndirectLog(sb, inodes[i])
                && (old(inodes)[i].addrs[NDIRECT] != 0 ==> inodes[i].addrs[NDIRECT] == old(inodes)[i].addrs[NDIRECT])
                && BlockAt(blocks, inodes[i], off) < sb.size
      ensures done && ok ==> Logs(sb, old(blocks), old(trace), old(logged), blocks, trace, logged)
    {
      hide FsOk, BitAt, Word, SlotOf, Logs;
      var bn := off / BSIZE;
      var r := Bmap(i, bn);
      if r.None? { return false; }
      ghost var b1, n1, t1, l1 := blocks, inodes, trace, logged;
      PatchKeeps(sb, blocks, inodes, owner, i, off, data);
      var d := Patch(blocks[r.value], off % BSIZE, data);
      if ok { LogWrite(r.value, d); } else { blocks := blocks[r.value := d]; }
      if ok {
        LogsOne(sb, b1, t1, l1, blocks, trace, logged);
        LogsTwice(sb, old(blocks), old(trace), old(logged), b1, t1, l1, blocks, trace, logged);
      }
      KeptWiden(old(blocks), old(inodes), b1, n1, blocks, inodes, i, off, off + |data|);
      done := true;
    }

    /** The loop of writei; the source can be read up to byte `readable`. */
    method WriteLoop(i: nat, off: nat, src: seq<byte>, readable: nat) returns (done: bool, tot: nat)
      requires FsOk(sb, blocks, inodes, owner, {}) && i in inodes && NoHoles(blocks, inodes[i])
      requires off <= inodes[i].size && off + |src| <= MAXSIZE && readable <= |src|
      modifies this
      ensures FsOk(sb, blocks, inodes, owner, {})
      ensures !done ==> forall x: nat :: x < sb.size ==> BitAt(sb, blocks, x)
      ensures done ==>
                && Progress(sb, old(blocks), old(inodes), blocks, inodes, i, off, src[..readable])
                && WholeChunks(off, |src|, readable, tot)
                && |logged| <= |old(logged)| + DataLog(off, |src|) + 2
                && (sb.size <= BPB ==> |logged| <= |old(logged)| + DataBlocks(off, |src|) + 2)
      ensures done && readable == |src| ==> Logs(sb, old(blocks), old(trace), old(logged), blocks, trace, logged)
    {
      hide FsOk, BitAt, Word, Logs, BlockAt, NoHoles, Progress, Kept, Stored, SameButAddrs, SameInodeBlocks;
      hide DataLog, DataBlocks, ChunkLog, IndirectLog, LogSoFar, ChunkSize;
      tot := 0;
      ghost var d: set<nat>, e: set<nat> := {}, {};
      FirstMapped(blocks, inodes[i], off);
      NothingWritten(sb, blocks, inodes, i, off);
      assert src[..0] == [];
      NothingLogged(sb, logged, inodes[i], off);
      LogsNone(sb, blocks, trace, logged);
      while tot < |src|
        invariant tot <= readable
        invariant FsOk(sb, blocks, inodes, owner, {})
        invariant Progress(sb, old(blocks), old(inodes), blocks, inodes, i, off, src[..tot])
        invariant LogSoFar(sb, old(logged), logged, d, e, inodes[i], off, tot)
        invariant readable == |src| ==> Logs(sb, old(blocks), old(trace), old(logged), blocks, trace, logged)
        invariant tot < |src| ==> tot == 0 || (off + tot) % BSIZE == 0
        invariant tot == 0 && off % BSIZE != 0 ==> BlockAt(blocks, inodes[i], off) != 0
      {
        var pos := off + tot;
        var m := ChunkSize(pos, |src| - tot);
        var end := if tot + m <= readable then tot + m else readable;
        ghost var b1, n1, t1, l1 := blocks, inodes, trace, logged;
        done := WriteChunk(i, pos, src[tot..end], end == tot + m);
        if !done { return; }
        if readable == |src| { LogsTwice(sb, old(blocks), old(trace), old(logged), b1, t1, l1, blocks, trace, logged); }
        LogStep(sb, old(logged), l1, logged, d, e, b1, n1[i], blocks, inodes[i], off, tot, m);
        d, e := d + ChunkLog(sb, b1, n1[i], blocks, inodes[i], pos), e + {BlockAt(blocks, inodes[i], pos)};
        ChunkStep(sb, old(blocks), old(inodes), b1, n1, blocks, inodes, i, off, src, tot, end);
        if end < tot + m {
          IndirectInRange(sb, blocks, inodes, owner, i);
          LogEnd(sb, old(logged), logged, d, e, inodes[i], off, tot + m, |src|);
          return;
        }
        tot := tot + m;
      }
      IndirectInRange(sb, blocks, inodes, owner, i);
      LogEnd(sb, old(logged), logged, d, e, inodes[i], off, tot, |src|);
      done := true;
    }

    /** Write src at off; only its first `readable` bytes can be read. */
    method Writei(i: nat, off: uint32, src: seq<byte>, readable: nat) returns (r: WriteResult)
      requires FsOk(sb, blocks, inodes, owner, {}) && AllNoHoles(blocks, inodes) && i in inodes
      requires |src| < U32 && readable <= |src|
      modifies this
      ensures FsOk(sb, blocks, inodes, owner, {})
      ensures r.Rejected? <==> off > old(inodes)[i].size || off + |src| > MAXSIZE
      ensures r.Rejected? ==> unchanged(this)
      ensures r.OutOfBlocks? ==> forall x: nat :: x < sb.size ==> BitAt(sb, blocks, x)
      ensures r.Written? ==>
                && WholeChunks(off, |src|, readable, r.tot)
                && Rewritten(old(blocks), old(inodes), blocks, inodes, i, off, src[..readable], r.tot)
                && (Synced(sb, old(blocks), old(inodes)) ==> Synced(sb, blocks, inodes))
                && |logged| <= |old(logged)| + DataLog(off, |src|) + 3
                && (sb.size <= BPB ==> |logged| <= |old(logged)| + DataBlocks(off, |src|) + 3)
      ensures r.Written? && readable == |src| ==> Logs(sb, old(blocks), old(trace), old(logged), blocks, trace, logged)
    {
      hide FsOk, BitAt, Logs, NoHoles, AllNoHoles, Progress, Synced, Rewritten, WholeChunks, DataLog, ReadInode, Kept;
      var n := |src|;
      if off > inodes[i].size || (off + n) % U32 < off { return Rejected; }
      if off + n > MAXSIZE { return Rejected; }
      assert NoHoles(blocks, inodes[i]) by { OneFile(blocks, inodes, i); }
      var done, tot := WriteLoop(i, off, src, readable);
      if !done { return OutOfBlocks; }
      ghost var b1, n1, t1, l1 := blocks, inodes, trace, logged;
      TotBounds(off, n, readable, tot);
      InProgress(sb, old(blocks), old(inodes), b1, n1, i, off, src[..readable]);
      SizeIsFree(sb, blocks, inodes, owner, i, off + tot);
      if off + tot > inodes[i].size { inodes := inodes[i := inodes[i].(size := off + tot)]; }
      ghost var n2 := inodes;
      Iupdate(i);
      if readable == n { LogsTwice(sb, old(blocks), old(trace), old(logged), b1, t1, l1, blocks, trace, logged); }
      r := Written(tot);
      WriteDone(sb, old(blocks), old(inodes), b1, n1, blocks, n2, i, off, src[..readable], tot);
    }

    /** The part of one iteration of readi that copies len bytes at pos. */
    method ReadChunk(i: nat, pos: nat, len: nat) returns (data: seq<byte>)
      requires FsOk(sb, blocks, inodes, owner, {}) && i in inodes && NoHoles(blocks, inodes[i])
      requires pos < inodes[i].size && pos + len <= inodes[i].size && pos % BSIZE + len <= BSIZE
      modifies this
      ensures unchanged(this) && data == Content(blocks, inodes[i])[pos..pos + len]
    {
      hide FsOk, BitAt, Word;
      assert BlockAt(blocks, inodes[i], pos) != 0;
      var addr := Bmap(i, pos / BSIZE);
      BlockBytes(blocks, inodes[i], pos, len);
      data := blocks[addr.value][pos % BSIZE..pos % BSIZE + len];
    }

    /** The loop of readi over len bytes that the file has; it stops where the destination ends. */
    method ReadLoop(i: nat, off: nat, len: nat, writable: nat) returns (done: bool, dst: seq<byte>)
      requires FsOk(sb, blocks, inodes, owner, {}) && i in inodes && NoHoles(blocks, inodes[i])
      requires off + len <= inodes[i].size
      modifies this
      ensures unchanged(this)
      ensures done == (len <= writable)
      ensures dst == Content(blocks, inodes[i])[off..off + if done then len else writable]
    {
      hide FsOk, NoHoles, Content;
      ghost var content := Content(blocks, inodes[i]);
      dst := [];
      var tot := 0;
      while tot < len
        invariant tot <= len && tot <= writable
        invariant unchanged(this)
        invariant dst == content[off..off + tot]
      {
        var pos := off + tot;
        var m := ChunkSize(pos, len - tot);
        var end := if tot + m <= writable then tot + m else writable;
        var data := ReadChunk(i, pos, end - tot);
        SliceJoin(content, off, pos, off + end);
        dst := dst + data;
        if end < tot + m { return false, dst; }
        tot := tot + m;
      }
      done := true;
    }

    /** Read up to n bytes at off into a destination that takes only `writable` bytes. */
    method Readi(i: nat, off: uint32, n: uint32, writable: nat) returns (r: int, dst: seq<byte>)
      requires FsOk(sb, blocks, inodes, owner, {}) && i in inodes && NoHoles(blocks, inodes[i])
      modifies this
      ensures unchanged(this)
      ensures off > inodes[i].size || off + n >= U32 ==> r == 0 && dst == []
      ensures off <= inodes[i].size && off + n < U32 ==>
                && (r == -1 <==> writable < n && off + writable < inodes[i].size)
                && (r != -1 ==> 0 <= r <= n && off + r <= inodes[i].size && (r == n || off + r == inodes[i].size))
                && dst == Content(blocks, inodes[i])[off..off + if r == -1 then writable else r]
    {
      hide FsOk, NoHoles, Content;
      if off > inodes[i].size || (off + n) % U32 < off { return 0, []; }
      var len := n;
      if off + n > inodes[i].size { len := inodes[i].size - off; }
      var done;
      done, dst := ReadLoop(i, off, len, writable);
      r := if done then len else -1;
    }

    /** The block in direct address k is freed and the address cleared. */
    method FreeAddr(i: nat, k: nat)
      requires FsOk(sb, blocks, inodes, owner, {}) && i in inodes && k < NDIRECT
      modifies this
      ensures FsOk(sb, blocks, inodes, owner, {}) && SameInodeBlocks(sb, old(blocks), blocks)
      ensures inodes == old(inodes)[i := SetAddr(old(inodes)[i], k, 0)]
      ensures owner == Disowned(old(owner), i, k, k + 1)
      ensures Kept(old(blocks), old(inodes), blocks, inodes, i, 0, MAXSIZE)
    {
      hide FsOk, BitAt, Word;
      var v := inodes[i].addrs[k];
      DisownSlot(sb, blocks, inodes, owner, i, k);
      if v != 0 {
        DetachDirect(sb, blocks, inodes, owner, {}, i, k);
        ghost var n', o' := inodes[i := SetAddr(inodes[i], k, 0)], owner - {v};
        assert {} + {v} == {v} && {v} - {v} == {};
        FlipKept(sb, blocks, n', o', {v}, v, i);
        Bfree(v, n', o', {v});
        owner := o';
      }
      assert v == 0 ==> inodes[i] == SetAddr(inodes[i], k, 0) && inodes[i := inodes[i]] == inodes;
      AddrsOnly(old(blocks), inodes, i, SetAddr(inodes[i], k, 0));
      inodes := inodes[i := SetAddr(inodes[i], k, 0)];
      KeptAfter(old(blocks), old(inodes), inodes, blocks, i);
    }

    /** Free the blocks that the indirect block a names, once its inode no longer names it. */
    method FreeEntries(ind: nat, a: Block, ghost n': Inodes, ghost o': map<nat, Slot>, ghost o: map<nat, Slot>,
                       ghost i: nat)
      requires FsOk(sb, blocks, n', o', IndirectBlocks(o, i)) && ind in IndirectBlocks(o, i)
      requires EntriesMatch(a, ind, o, i)
      modifies this`blocks, this`logged, this`trace
      ensures FsOk(sb, blocks, n', o', {ind}) && SameInodeBlocks(sb, old(blocks), blocks)
      ensures Kept(old(blocks), n', blocks, n', i, 0, 0)
    {
      hide FsOk, BitAt, Word;
      var j := 0;
      KeptAll(blocks, n', i);
      assert EntriesFrom(o, i, ind, 0) == IndirectBlocks(o, i);
      while j < NINDIRECT
        invariant j <= NINDIRECT
        invariant FsOk(sb, blocks, n', o', EntriesFrom(o, i, ind, j)) && SameInodeBlocks(sb, old(blocks), blocks)
        invariant Kept(old(blocks), n', blocks, n', i, 0, 0)
      {
        var b := Word(a, j);
        NextEntry(a, ind, o, i, j);
        if b != 0 {
          ghost var b1 := blocks;
          FlipKept(sb, blocks, n', o', EntriesFrom(o, i, ind, j), b, i);
          Bfree(b, n', o', EntriesFrom(o, i, ind, j));
          KeptCompose(old(blocks), n', b1, n', blocks, n', i, 0, 0, 0);
        }
        j := j + 1;
      }
      assert EntriesFrom(o, i, ind, NINDIRECT) == {ind};
    }

    /** The second half of itrunc: free the indirect blocks, then the block that names them. */
    method FreeIndirect(i: nat)
      requires FsOk(sb, blocks, inodes, owner, {}) && i in inodes
      modifies this
      ensures FsOk(sb, blocks, inodes, owner, {}) && SameInodeBlocks(sb, old(blocks), blocks)
      ensures inodes == old(inodes)[i := SetAddr(old(inodes)[i], NDIRECT, 0)]
      ensures owner == Disowned(old(owner), i, NDIRECT, NSLOT)
      ensures Kept(old(blocks), old(inodes), blocks, inodes, i, 0, MAXSIZE)
    {
      hide FsOk, BitAt, Word;
      var ind := inodes[i].addrs[NDIRECT];
      DisownIndirect(sb, blocks, inodes, owner, i);
      AddrsOnly(blocks, inodes, i, SetAddr(inodes[i], NDIRECT, 0));
      ghost var n' := inodes[i := SetAddr(inodes[i], NDIRECT, 0)];
      if ind == 0 {
        assert inodes[i] == SetAddr(inodes[i], NDIRECT, 0) && inodes[i := inodes[i]] == inodes;
        return;
      }
      IndirectEntries(sb, blocks, inodes, owner, {}, i);
      SlotInRange(sb, blocks, inodes, owner, {}, i, NDIRECT);
      DetachIndirect(sb, blocks, inodes, owner, {}, i);
      ghost var gone := IndirectBlocks(owner, i);
      ghost var o' := owner - gone;
      assert {} + gone == gone;
      FreeEntries(ind, blocks[ind], n', o', owner, i);
      ghost var b1 := blocks;
      FlipKept(sb, blocks, n', o', {ind}, ind, i);
      assert {ind} - {ind} == {};
      Bfree(ind, n', o', {ind});
      KeptCompose(old(blocks), n', b1, n', blocks, n', i, 0, 0, 0);
      inodes := inodes[i := SetAddr(inodes[i], NDIRECT, 0)];
      owner := o';
      KeptAfter(old(blocks), old(inodes), inodes, blocks, i);
    }

    /** The first half of itrunc. */
    method FreeDirect(i: nat)
      requires FsOk(sb, blocks, inodes, owner, {}) && i in inodes
      modifies this
      ensures FsOk(sb, blocks, inodes, owner, {}) && SameInodeBlocks(sb, old(blocks), blocks)
      ensures SameButAddrs(old(inodes), inodes, i)
      ensures forall j: nat :: j < NDIRECT ==> inodes[i].addrs[j] == 0
      ensures owner == Disowned(old(owner), i, 0, NDIRECT)
      ensures Kept(old(blocks), old(inodes), blocks, inodes, i, 0, MAXSIZE)
    {
      hide FsOk, BitAt, Word, Kept;
      var k := 0;
      AddrsOnly(blocks, inodes, i, inodes[i]);
      assert inodes[i := inodes[i]] == inodes && Disowned(owner, i, 0, 0) == owner;
      while k < NDIRECT
        invariant k <= NDIRECT
        invariant FsOk(sb, blocks, inodes, owner, {}) && SameInodeBlocks(sb, old(blocks), blocks)
        invariant SameButAddrs(old(inodes), inodes, i)
        invariant forall j: nat :: j < k ==> inodes[i].addrs[j] == 0
        invariant owner == Disowned(old(owner), i, 0, k)
        invariant Kept(old(blocks), old(inodes), blocks, inodes, i, 0, MAXSIZE)
      {
        ghost var b1, n1, o1 := blocks, inodes, owner;
        FreeAddr(i, k);
        DisownMore(old(owner), i, 0, k, k + 1);
        KeptTwice(old(blocks), old(inodes), b1, n1, blocks, inodes, i);
        k := k + 1;
      }
    }

    /** Discard the contents of inode i. */
    method Itrunc(i: nat)
      requires FsOk(sb, blocks, inodes, owner, {}) && i in inodes
      modifies this
      ensures FsOk(sb, blocks, inodes, owner, {})
      ensures i in inodes && inodes == old(inodes)[i := inodes[i]]
      ensures inodes[i].head == old(inodes)[i].head && inodes[i].size == 0
      ensures forall k: nat :: k < NSLOT ==> SlotOf(blocks, inodes[i], k) == 0
      ensures owner == Disowned(old(owner), i, 0, NSLOT)
      ensures forall j: nat :: j in inodes && j != i && NoHoles(old(blocks), inodes[j]) ==>
                NoHoles(blocks, inodes[j]) && Content(blocks, inodes[j]) == Content(old(blocks), inodes[j])
      ensures Synced(sb, old(blocks), old(inodes)) ==> Synced(sb, blocks, inodes)
    {
      hide FsOk, BitAt, Word, Kept, NoHoles, Content, Synced, ReadInode, SlotOf, Disowned, SameInodeBlocks;
      FreeDirect(i);
      ghost var b1, n1 := blocks, inodes;
      FreeIndirect(i);
      KeptTwice(old(blocks), old(inodes), b1, n1, blocks, inodes, i);
      DisownMore(old(owner), i, 0, NDIRECT, NSLOT);
      SizeIsFree(sb, blocks, inodes, owner, i, 0);
      ghost var b2, n2 := blocks, inodes;
      inodes := inodes[i := inodes[i].(size := 0)];
      Iupdate(i);
      assert inodes[i].addrs == n1[i].addrs[NDIRECT := 0];
      NoSlots(blocks, inodes[i]);
      SameInodesTwice(sb, old(blocks), b1, b2);
      TruncDone(sb, old(blocks), old(inodes), b2, n2, blocks, inodes, i);
    }
  }

  lemma NoSlots(blocks: seq<Block>, ino: Inode)
    requires |ino.addrs| == NDIRECT + 1 && forall k :: 0 <= k <= NDIRECT ==> ino.addrs[k] == 0
    ensures forall k: nat :: k < NSLOT ==> SlotOf(blocks, ino, k) == 0
  {
  }

  lemma SameInodesTwice(sb: Super, a: seq<Block>, b: seq<Block>, c: seq<Block>)
    requires SameInodeBlocks(sb, a, b) && SameInodeBlocks(sb, b, c)
    ensures SameInodeBlocks(sb, a, c)
  {
  }

  lemma TruncDone(sb: Super, b0: seq<Block>, n0: Inodes, b2: seq<Block>, n2: Inodes, b3: seq<Block>, n3: Inodes, i: nat)
    requires SuperOk(sb) && |b0| == sb.size && InodesOk(sb, n0) && SameInodeBlocks(sb, b0, b2)
    requires i in n0 && i in n2 && n2 == n0[i := n2[i]] && n3 == n2[i := n2[i].(size := 0)]
    requires Kept(b0, n0, b2, n2, i, 0, MAXSIZE) && Kept(b2, n3, b3, n3, i, 0, 0)
    requires IBlock(sb, i) < |b2| && |b3| == |b2| && b3 == b2[IBlock(sb, i) := b3[IBlock(sb, i)]]
    requires ReadInode(b3[IBlock(sb, i)], i % IPB) == n3[i]
    requires forall s: nat ::
               s < IPB && s != i % IPB ==> ReadInode(b3[IBlock(sb, i)], s) == ReadInode(b2[IBlock(sb, i)], s)
    ensures forall j: nat :: j in n3 && j != i && NoHoles(b0, n3[j]) ==>
              NoHoles(b3, n3[j]) && Content(b3, n3[j]) == Content(b0, n3[j])
    ensures Synced(sb, b0, n0) ==> Synced(sb, b3, n3)
  {
    hide ReadInode, BlockAt, ByteAt;
    SizeOnly(b2, n2, n3, i);
    KeptWidenBack(b0, n0, b2, n3, b3, n3, i, 0, MAXSIZE);
    forall j: nat | j in n3 && j != i && NoHoles(b0, n3[j])
      ensures NoHoles(b3, n3[j]) && Content(b3, n3[j]) == Content(b0, n3[j])
    {
      SameContent(b0, n0, b3, n3, i, 0, MAXSIZE, j);
    }
    if Synced(sb, b0, n0) { SyncedAgain(sb, b0, n0, b2, b3, n3, i); }
  }

  /** How far an iteration of readi or writei goes: to the end of the block or of the request. */
  function ChunkSize(pos: nat, left: nat): (m: nat)
    requires left > 0
    ensures 0 < m <= left && pos % BSIZE + m <= BSIZE && (m < left ==> (pos + m) % BSIZE == 0)
  {
    if left < BSIZE - pos % BSIZE then left else BSIZE - pos % BSIZE
  }

  lemma SliceJoin(s: seq<byte>, a: nat, b: nat, c: nat)
    requires a <= b <= c <= |s|
    ensures s[a..b] + s[b..c] == s[a..c]
  {
  }

  /** Bytes of a file within one block are bytes of that block. */
  lemma BlockBytes(blocks: seq<Block>, ino: Inode, pos: nat, m: nat)
    requires NoHoles(blocks, ino) && pos + m <= ino.size && pos % BSIZE + m <= BSIZE
    requires 0 < BlockAt(blocks, ino, pos) < |blocks|
    ensures Content(blocks, ino)[pos..pos + m] == blocks[BlockAt(blocks, ino, pos)][pos % BSIZE..pos % BSIZE + m]
  {
    hide SlotOf, NoHoles;
    var b := blocks[BlockAt(blocks, ino, pos)];
    var at := pos % BSIZE;
    var c, d := Content(blocks, ino)[pos..pos + m], b[at..at + m];
    forall q: nat | q < m ensures c[q] == d[q] {
      var p := pos + q;
      assert p / BSIZE == pos / BSIZE && p % BSIZE == at + q;
    }
  }

  /** The change from b0 to b1 is that of the log_writes from t0 to t1, all of blocks behind the log. */
  ghost predicate Logs(sb: Super, b0: seq<Block>, t0: seq<(nat, Block)>, l0: set<nat>,
                       b1: seq<Block>, t1: seq<(nat, Block)>, l1: set<nat>)
  {
    && l0 <= l1 && t0 <= t1 && b1 == Updated(b0, t1[|t0|..], |t1| - |t0|)
    && forall k :: |t0| <= k < |t1| ==> sb.inodestart <= t1[k].0 < |b0| && t1[k].0 in l1
  }

  lemma LogsNone(sb: Super, b: seq<Block>, t: seq<(nat, Block)>, l: set<nat>)
    ensures Logs(sb, b, t, l, b, t, l)
  {
  }

  lemma LogsOne(sb: Super, b0: seq<Block>, t0: seq<(nat, Block)>, l0: set<nat>,
                b1: seq<Block>, t1: seq<(nat, Block)>, l1: set<nat>)
    requires |t1| == |t0| + 1 && t1 == t0 + [t1[|t0|]] && sb.inodestart <= t1[|t0|].0 < |b0|
    requires b1 == b0[t1[|t0|].0 := t1[|t0|].1] && l1 == l0 + {t1[|t0|].0}
    ensures Logs(sb, b0, t0, l0, b1, t1, l1)
  {
    assert t1[|t0|..] == [t1[|t0|]];
    assert Updated(b0, t1[|t0|..], 0) == b0;
  }

  lemma LogsTwice(sb: Super, b0: seq<Block>, t0: seq<(nat, Block)>, l0: set<nat>, b1: seq<Block>, t1: seq<(nat, Block)>,
                  l1: set<nat>, b2: seq<Block>, t2: seq<(nat, Block)>, l2: set<nat>)
    requires Logs(sb, b0, t0, l0, b1, t1, l1) && Logs(sb, b1, t1, l1, b2, t2, l2)
    ensures Logs(sb, b0, t0, l0, b2, t2, l2)
  {
    hide Updated;
    var s1, s2 := t1[|t0|..], t2[|t1|..];
    assert t2[|t0|..] == s1 + s2;
    UpdatedTwice(b0, s1, s2, |s2|);
    forall k | |t0| <= k < |t2| ensures sb.inodestart <= t2[k].0 < |b0| && t2[k].0 in l2 {
      if k < |t1| { assert t2[k] == t1[k]; }
    }
  }

  lemma {:induction false} UpdatedTwice(b: seq<Block>, s: seq<(nat, Block)>, t: seq<(nat, Block)>, k: nat)
    requires k <= |t|
    ensures Updated(b, s + t, |s| + k) == Updated(Updated(b, s, |s|), t, k)
  {
    if k == 0 { UpdatedPrefix(b, s, t, |s|); } else { UpdatedTwice(b, s, t, k - 1); }
  }

  lemma {:induction false} UpdatedPrefix(b: seq<Block>, s: seq<(nat, Block)>, t: seq<(nat, Block)>, k: nat)
    requires k <= |s|
    ensures Updated(b, s + t, k) == Updated(b, s, k)
  {
    if k > 0 { UpdatedPrefix(b, s, t, k - 1); }
  }

  datatype WriteResult = Rejected | Written(tot: nat) | OutOfBlocks

  /** File i holds d at off, cut off at the size that counts only tot bytes of it;
      its other inode fields and all other files are as they were. */
  ghost predicate Rewritten(b0: seq<Block>, n0: Inodes, b1: seq<Block>, n1: Inodes, i: nat, off: nat, d: seq<byte>,
                            tot: nat)
  {
    && tot <= |d| && i in n0 && off <= n0[i].size && n1.Keys == n0.Keys
    && AllNoHoles(b1, n1)
    && n1[i].head == n0[i].head
    && n1[i].size == (if off + tot > n0[i].size then off + tot else n0[i].size)
    && Content(b1, n1[i]) == Overlay(Content(b0, n0[i]), off, d)[..n1[i].size]
    && forall j: nat :: j in n0 && j != i ==> n1[j] == n0[j] && Content(b1, n1[j]) == Content(b0, n0[j])
  }

  lemma OneFile(blocks: seq<Block>, inodes: Inodes, i: nat)
    requires AllNoHoles(blocks, inodes) && i in inodes
    ensures NoHoles(blocks, inodes[i])
  {
  }

  lemma TotBounds(off: nat, n: nat, readable: nat, tot: nat)
    requires WholeChunks(off, n, readable, tot)
    ensures tot <= readable <= n && (readable == n ==> tot == n) && (tot < n ==> readable < n)
  {
  }

  lemma InProgress(sb: Super, b0: seq<Block>, n0: Inodes, b1: seq<Block>, n1: Inodes, i: nat, off: nat, d: seq<byte>)
    requires Progress(sb, b0, n0, b1, n1, i, off, d)
    ensures i in n0 && i in n1 && n1[i].size == n0[i].size
  {
  }

  /** The size of an inode in memory is in no block: changing it keeps the layout. */
  lemma SizeIsFree(sb: Super, blocks: seq<Block>, inodes: Inodes, owner: map<nat, Slot>, i: nat, size: uint32)
    requires FsOk(sb, blocks, inodes, owner, {}) && i in inodes
    ensures FsOk(sb, blocks, inodes[i := inodes[i].(size := size)], owner, {})
  {
    hide BitAt, Word;
    var n1 := inodes[i := inodes[i].(size := size)];
    forall j: nat, k: nat | j in n1 && k < NSLOT ensures SlotOk(blocks, n1, owner, j, k) {
      assert SlotOk(blocks, inodes, owner, j, k);
    }
    forall b | b in owner ensures OwnerOk(sb, blocks, n1, owner, b) {
      assert OwnerOk(sb, blocks, inodes, owner, b);
    }
  }

  lemma SizeKept(b0: seq<Block>, n0: Inodes, b1: seq<Block>, n1: Inodes, n2: Inodes, i: nat, off: nat, d: seq<byte>)
    requires Kept(b0, n0, b1, n1, i, off, off + |d|) && i in n1 && Stored(b1, n1[i], off, d)
    requires i in n2 && n2 == n1[i := n1[i].(size := n2[i].size)]
    ensures Kept(b0, n0, b1, n2, i, off, off + |d|) && Stored(b1, n2[i], off, d)
  {
    hide BlockAt, ByteAt;
    SizeOnly(b1, n1, n2, i);
  }

  /** Growing the size and writing back the inode finish the write. */
  lemma WriteDone(sb: Super, b0: seq<Block>, n0: Inodes, b1: seq<Block>, n1: Inodes, b2: seq<Block>, n2: Inodes,
                  i: nat, off: nat, d: seq<byte>, tot: nat)
    requires AllNoHoles(b0, n0) && Progress(sb, b0, n0, b1, n1, i, off, d)
    requires off <= n0[i].size && tot <= |d| && off + |d| <= MAXSIZE
    requires n2 == n1[i := n1[i].(size := if off + tot > n0[i].size then off + tot else n0[i].size)]
    requires SuperOk(sb) && |b0| == sb.size && InodesOk(sb, n0)
    requires Kept(b1, n2, b2, n2, i, 0, 0)
    requires IBlock(sb, i) < |b1| && |b2| == |b1| && b2 == b1[IBlock(sb, i) := b2[IBlock(sb, i)]]
    requires ReadInode(b2[IBlock(sb, i)], i % IPB) == n2[i]
    requires forall s: nat ::
               s < IPB && s != i % IPB ==> ReadInode(b2[IBlock(sb, i)], s) == ReadInode(b1[IBlock(sb, i)], s)
    ensures Rewritten(b0, n0, b2, n2, i, off, d, tot)
    ensures Synced(sb, b0, n0) ==> Synced(sb, b2, n2)
  {
    hide ReadInode, BlockAt, ByteAt, Kept, Stored, Content, Overlay, NoHoles, Synced, SameInodeBlocks;
    SizeKept(b0, n0, b1, n1, n2, i, off, d);
    KeptWidenBack(b0, n0, b1, n2, b2, n2, i, off, off + |d|);
    StoredKept(b1, n2, b2, i, off, d);
    WrittenContent(b0, n0, b2, n2, i, off, d, tot);
    forall j: nat | j in n0 && j != i ensures NoHoles(b2, n2[j]) && Content(b2, n2[j]) == Content(b0, n0[j]) {
      SameContent(b0, n0, b2, n2, i, off, off + |d|, j);
    }
    if Synced(sb, b0, n0) { SyncedAgain(sb, b0, n0, b1, b2, n2, i); }
  }

  /** data has been stored at off in file i; sizes, other files and inode blocks are as they were. */
  ghost predicate Progress(sb: Super, b0: seq<Block>, n0: Inodes, b1: seq<Block>, n1: Inodes, i: nat, off: nat,
                           data: seq<byte>)
    ensures Progress(sb, b0, n0, b1, n1, i, off, data) ==> i in n1
  {
    && SameInodeBlocks(sb, b0, b1) && SameButAddrs(n0, n1, i)
    && Kept(b0, n0, b1, n1, i, off, off + |data|) && Stored(b1, n1[i], off, data)
  }

  lemma NothingWritten(sb: Super, blocks: seq<Block>, inodes: Inodes, i: nat, off: nat)
    requires i in inodes
    ensures Progress(sb, blocks, inodes, blocks, inodes, i, off, [])
  {
  }

  lemma ChunkStep(sb: Super, b0: seq<Block>, n0: Inodes, b1: seq<Block>, n1: Inodes, b2: seq<Block>, n2: Inodes,
                  i: nat, off: nat, src: seq<byte>, tot: nat, end: nat)
    requires tot <= end <= |src| && off + tot <= MAXSIZE
    requires Progress(sb, b0, n0, b1, n1, i, off, src[..tot])
    requires Progress(sb, b1, n1, b2, n2, i, off + tot, src[tot..end])
    ensures Progress(sb, b0, n0, b2, n2, i, off, src[..end])
  {
    assert src[..end] == src[..tot] + src[tot..end];
    KeptCompose(b0, n0, b1, n1, b2, n2, i, off, off + tot, off + end);
    StoredCompose(b1, n1, b2, n2, i, off, src[..tot], src[tot..end]);
  }

  lemma LogBound(logged: set<nat>, was: set<nat>, d: set<nat>, ind: set<nat>)
    requires logged <= was + d + ind
    ensures |logged| <= |was| + |d| + |ind|
  {
    SubsetSize(logged, was + d + ind);
  }

  lemma IndirectLogGrows(sb: Super, ino0: Inode, ino1: Inode)
    requires |ino0.addrs| == |ino1.addrs| == NDIRECT + 1
    requires ino0.addrs[NDIRECT] != 0 ==> ino1.addrs[NDIRECT] == ino0.addrs[NDIRECT]
    ensures IndirectLog(sb, ino0) <= IndirectLog(sb, ino1)
  {
  }

  /** One more chunk of m bytes, up to the end of its block. */
  lemma DataLogStep(off: nat, tot: nat, m: nat)
    requires tot == 0 || (off + tot) % BSIZE == 0
    requires (off + tot) % BSIZE + m <= BSIZE
    ensures DataLog(off, 0) == DataBlocks(off, 0) == 0
    ensures m > 0 ==> DataBlocks(off, tot + m) == DataBlocks(off, tot) + 1
    ensures m > 0 ==> DataLog(off, tot + m) == DataLog(off, tot) + if tot == 0 && off % BSIZE != 0 then 1 else 2
  {
  }

  lemma DataLogMonotone(off: nat, a: nat, b: nat)
    requires a <= b
    ensures DataLog(off, a) <= DataLog(off, b) && DataBlocks(off, a) <= DataBlocks(off, b)
  {
  }

  /** Blocks logged for the data of n bytes at off: each block and, if it may be new, its bitmap block. */
  function DataLog(off: nat, n: nat): (r: nat)
  {
    if n == 0 then 0
    else 2 * ((off % BSIZE + n + BSIZE - 1) / BSIZE) - (if off % BSIZE == 0 then 0 else 1)
  }

  /** Blocks that n bytes at off lie in. */
  function DataBlocks(off: nat, n: nat): (r: nat)
  {
    if n == 0 then 0 else (off % BSIZE + n + BSIZE - 1) / BSIZE
  }

  /** What the first tot bytes of a write have added to the log: d for the data, with e the
      data blocks themselves, and what the indirect block needs. */
  ghost predicate LogSoFar(sb: Super, was: set<nat>, logged: set<nat>, d: set<nat>, e: set<nat>, ino: Inode, off: nat,
                           tot: nat)
  {
    && logged <= was + d + IndirectLog(sb, ino) && |d| <= DataLog(off, tot) && |e| <= DataBlocks(off, tot)
    && (sb.size <= BPB ==> d <= e + {sb.bmapstart})
  }

  lemma NothingLogged(sb: Super, logged: set<nat>, ino: Inode, off: nat)
    ensures LogSoFar(sb, logged, logged, {}, {}, ino, off, 0)
  {
  }

  lemma LogStep(sb: Super, was: set<nat>, l1: set<nat>, l2: set<nat>, d: set<nat>, e: set<nat>,
                b1: seq<Block>, ino1: Inode, b2: seq<Block>, ino2: Inode, off: nat, tot: nat, m: nat)
    requires LogSoFar(sb, was, l1, d, e, ino1, off, tot) && |ino1.addrs| == |ino2.addrs| == NDIRECT + 1
    requires l2 <= l1 + ChunkLog(sb, b1, ino1, b2, ino2, off + tot) + IndirectLog(sb, ino2)
    requires ino1.addrs[NDIRECT] != 0 ==> ino2.addrs[NDIRECT] == ino1.addrs[NDIRECT]
    requires (tot == 0 || (off + tot) % BSIZE == 0) && m > 0 && (off + tot) % BSIZE + m <= BSIZE
    requires tot == 0 && off % BSIZE != 0 ==> BlockAt(b1, ino1, off) != 0
    requires BlockAt(b2, ino2, off + tot) < sb.size
    ensures LogSoFar(sb, was, l2, d + ChunkLog(sb, b1, ino1, b2, ino2, off + tot), e + {BlockAt(b2, ino2, off + tot)},
                     ino2, off, tot + m)
  {
    hide BlockAt, DataLog, DataBlocks, IndirectLog, ChunkLog;
    var chunk := ChunkLog(sb, b1, ino1, b2, ino2, off + tot);
    DataLogStep(off, tot, m);
    IndirectLogGrows(sb, ino1, ino2);
    OneBitmap(sb, b1, ino1, b2, ino2, off + tot);
    assert |d + chunk| <= |d| + |chunk|;
  }

  lemma LogEnd(sb: Super, was: set<nat>, logged: set<nat>, d: set<nat>, e: set<nat>, ino: Inode, off: nat, tot: nat,
               n: nat)
    requires LogSoFar(sb, was, logged, d, e, ino, off, tot) && tot <= n
    requires |ino.addrs| == NDIRECT + 1 && ino.addrs[NDIRECT] < sb.size
    ensures |logged| <= |was| + DataLog(off, n) + 2
    ensures sb.size <= BPB ==> |logged| <= |was| + DataBlocks(off, n) + 2
  {
    hide DataLog, DataBlocks, IndirectLog;
    LogBound(logged, was, d, IndirectLog(sb, ino));
    OneBitmapBound(sb, logged, was, d, e, ino);
    DataLogMonotone(off, tot, n);
  }

  /** With one bitmap block, a chunk logs its block and that one. */
  lemma OneBitmap(sb: Super, b0: seq<Block>, ino0: Inode, b1: seq<Block>, ino1: Inode, off: nat)
    requires BlockAt(b1, ino1, off) < sb.size
    ensures sb.size <= BPB ==> ChunkLog(sb, b0, ino0, b1, ino1, off) <= {BlockAt(b1, ino1, off)} + {sb.bmapstart}
  {
    hide BlockAt;
  }

  lemma IndirectInRange(sb: Super, blocks: seq<Block>, inodes: Inodes, owner: map<nat, Slot>, i: nat)
    requires FsOk(sb, blocks, inodes, owner, {}) && i in inodes
    ensures |inodes[i].addrs| == NDIRECT + 1 && inodes[i].addrs[NDIRECT] < sb.size
  {
    if inodes[i].addrs[NDIRECT] != 0 { SlotInRange(sb, blocks, inodes, owner, {}, i, NDIRECT); }
  }

  lemma OneBitmapBound(sb: Super, logged: set<nat>, was: set<nat>, d: set<nat>, e: set<nat>, ino: Inode)
    requires logged <= was + d + IndirectLog(sb, ino) && (sb.size <= BPB ==> d <= e + {sb.bmapstart})
    requires |ino.addrs| == NDIRECT + 1 && ino.addrs[NDIRECT] < sb.size
    ensures sb.size <= BPB ==> |logged| <= |was| + |e| + 2
  {
    if sb.size <= BPB {
      var both := {ino.addrs[NDIRECT], sb.bmapstart};
      assert d <= e + both && IndirectLog(sb, ino) <= both;
      assert logged <= was + e + both;
      LogBound(logged, was, e, both);
    }
  }

  /** tot bytes are what the complete chunks of an n-byte write hold when the source ends at readable. */
  predicate WholeChunks(off: nat, n: nat, readable: nat, tot: nat)
  {
    && tot <= readable <= n
    && (readable == n ==> tot == n)
    && (tot < n ==> (tot == 0 || (off + tot) % BSIZE == 0) && readable - tot < BSIZE - (off + tot) % BSIZE)
  }

  /** In a file without holes the block of an unaligned offset up to the size is there. */
  lemma FirstMapped(blocks: seq<Block>, ino: Inode, off: nat)
    requires NoHoles(blocks, ino) && off <= ino.size
    ensures off % BSIZE != 0 ==> BlockAt(blocks, ino, off) != 0
  {
    if off % BSIZE != 0 {
      assert BlockAt(blocks, ino, off - 1) != 0;
      assert (off - 1) / BSIZE == off / BSIZE;
    }
  }

  /** The block written at off, and its bitmap block if the block had to be allocated. */
  ghost function ChunkLog(sb: Super, b0: seq<Block>, ino0: Inode, b1: seq<Block>, ino1: Inode, off: nat): (s: set<nat>)
    ensures |s| <= if BlockAt(b0, ino0, off) == 0 then 2 else 1
  {
    var v := BlockAt(b1, ino1, off);
    if BlockAt(b0, ino0, off) == 0 then {v, BBlock(sb, v)} else {v}
  }

  /** What the indirect block of an inode may add to the log: itself and its bitmap block. */
  ghost function IndirectLog(sb: Super, ino: Inode): (s: set<nat>)
    ensures |s| <= 2
  {
    if |ino.addrs| != NDIRECT + 1 || ino.addrs[NDIRECT] == 0 then {}
    else {ino.addrs[NDIRECT], BBlock(sb, ino.addrs[NDIRECT])}
  }

  /** Only block addresses of inode i differ. */
  ghost predicate SameButAddrs(n0: Inodes, n1: Inodes, i: nat)
  {
    && i in n0 && i in n1 && n1 == n0[i := n1[i]]
    && n1[i].size == n0[i].size && n1[i].head == n0[i].head && |n1[i].addrs| == |n0[i].addrs|
  }
}
