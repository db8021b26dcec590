/** The disk image as kernel/fs.h lays it out and mkfs/mkfs.c writes it: plain
    bytes at plain addresses.  Read that way, an image whose inodes are written
    back holds the same files and the same bitmap as the block map and the
    accessors of the kernel say. */
module DiskFormat {
  import opened Words
  import opened BufferCache
  import opened FsLayout
  import opened FileContent
  import opened DurableFile

  /** Byte a of the image. */
  function Raw(blocks: seq<Block>, a: nat): (c: byte)
  {
    if a / 1024 < |blocks| then blocks[a / 1024][a % 1024] else 0
  }

  /** The four bytes at a, least significant first. */
  function Long(blocks: seq<Block>, a: nat): (w: nat)
  {
    Raw(blocks, a) + 256 * Raw(blocks, a + 1) + 65536 * Raw(blocks, a + 2) + 16777216 * Raw(blocks, a + 3)
  }

  /** Inodes are 64 bytes each, from block `start` on. */
  function InodeAddress(start: nat, i: nat): (a: nat)
  {
    1024 * start + 64 * i
  }

  function RawSize(blocks: seq<Block>, start: nat, i: nat): (w: nat)
  {
    Long(blocks, InodeAddress(start, i) + 8)
  }

  /** Twelve block numbers follow the size, and then that of a block of 256 more. */
  function RawBlock(blocks: seq<Block>, start: nat, i: nat, n: nat): (b: nat)
  {
    var a := InodeAddress(start, i) + 12;
    if n < 12 then Long(blocks, a + 4 * n)
    else
      var indirect := Long(blocks, a + 48);
      if indirect == 0 then 0 else Long(blocks, 1024 * indirect + 4 * (n - 12))
  }

  function RawByte(blocks: seq<Block>, start: nat, i: nat, p: nat): (c: byte)
  {
    Raw(blocks, 1024 * RawBlock(blocks, start, i, p / 1024) + p % 1024)
  }

  /** One bit for each block, least significant first, from block `start` on. */
  predicate RawUsed(blocks: seq<Block>, start: nat, b: nat)
  {
    Raw(blocks, 1024 * start + b / 8) / [1, 2, 4, 8, 16, 32, 64, 128][b % 8] % 2 == 1
  }

  lemma RawAt(blocks: seq<Block>, c: nat, k: nat)
    requires c < |blocks| && k < 1024
    ensures Raw(blocks, 1024 * c + k) == blocks[c][k]
  {
  }

  lemma RawPast(blocks: seq<Block>, c: nat, k: nat)
    requires c >= |blocks|
    ensures Raw(blocks, 1024 * c + k) == 0
  {
  }

  lemma LongAt(blocks: seq<Block>, c: nat, w: nat)
    requires c < |blocks| && w < 256
    ensures Long(blocks, 1024 * c + 4 * w) == Word(blocks[c], w)
  {
    RawAt(blocks, c, 4 * w);
    RawAt(blocks, c, 4 * w + 1);
    RawAt(blocks, c, 4 * w + 2);
    RawAt(blocks, c, 4 * w + 3);
  }

  lemma LongPast(blocks: seq<Block>, c: nat, w: nat)
    requires c >= |blocks|
    ensures Long(blocks, 1024 * c + 4 * w) == 0
  {
    RawPast(blocks, c, 4 * w);
    RawPast(blocks, c, 4 * w + 1);
    RawPast(blocks, c, 4 * w + 2);
    RawPast(blocks, c, 4 * w + 3);
  }

  /** Word w of on-disk inode i. */
  lemma InodeWord(sb: Super, blocks: seq<Block>, i: nat, w: nat)
    requires IBlock(sb, i) < |blocks| && w < 16
    ensures Long(blocks, InodeAddress(sb.inodestart, i) + 4 * w) == Word(blocks[IBlock(sb, i)], 16 * (i % IPB) + w)
  {
    LongAt(blocks, IBlock(sb, i), 16 * (i % IPB) + w);
    assert InodeAddress(sb.inodestart, i) + 4 * w == 1024 * IBlock(sb, i) + 4 * (16 * (i % IPB) + w);
  }

  /** The n-th block of file i. */
  lemma BlockRead(sb: Super, blocks: seq<Block>, inodes: Inodes, i: nat, n: nat)
    requires i in inodes && SyncedAt(sb, blocks, inodes, i) && n < MAXFILE
    ensures RawBlock(blocks, sb.inodestart, i, n) == SlotOf(blocks, inodes[i], FileSlot(n))
  {
    hide Long, Word, InodeAddress;
    var k := if n < NDIRECT then n else NDIRECT;
    InodeWord(sb, blocks, i, 3 + k);
    var a := InodeAddress(sb.inodestart, i);
    assert a + 12 + 4 * k == a + 4 * (3 + k);
    var v := inodes[i].addrs[k];
    assert v == Word(blocks[IBlock(sb, i)], 16 * (i % IPB) + 3 + k);
    if n >= NDIRECT && v != 0 {
      if v < |blocks| { LongAt(blocks, v, n - NDIRECT); } else { LongPast(blocks, v, n - NDIRECT); }
    }
  }

  lemma ByteRead(sb: Super, blocks: seq<Block>, inodes: Inodes, i: nat, p: nat)
    requires i in inodes && SyncedAt(sb, blocks, inodes, i) && p < MAXSIZE
    ensures RawByte(blocks, sb.inodestart, i, p) == ByteAt(blocks, inodes[i], p)
  {
    BlockRead(sb, blocks, inodes, i, p / 1024);
    hide RawBlock, SlotOf, SyncedAt;
    var b := RawBlock(blocks, sb.inodestart, i, p / 1024);
    if b < |blocks| { RawAt(blocks, b, p % 1024); } else { RawPast(blocks, b, p % 1024); }
  }

  /** The files of the image are the files of the kernel, size and bytes. */
  lemma FilesRead(sb: Super, blocks: seq<Block>, inodes: Inodes, i: nat)
    requires Synced(sb, blocks, inodes) && i in inodes && inodes[i].size <= MAXSIZE
    ensures RawSize(blocks, sb.inodestart, i) == |Content(blocks, inodes[i])|
    ensures forall p: nat :: p < inodes[i].size ==>
              RawByte(blocks, sb.inodestart, i, p) == Content(blocks, inodes[i])[p]
  {
    assert SyncedAt(sb, blocks, inodes, i);
    InodeWord(sb, blocks, i, 2);
    hide Long, Word, RawByte, ByteAt;
    forall p: nat | p < inodes[i].size
      ensures RawByte(blocks, sb.inodestart, i, p) == Content(blocks, inodes[i])[p]
    {
      ByteRead(sb, blocks, inodes, i, p);
    }
  }

  lemma {:induction false} BitOfByte(c: nat, k: nat)
    requires k < 8
    ensures BitOf(c, k) <==> c / [1, 2, 4, 8, 16, 32, 64, 128][k] % 2 == 1
    decreases k
  {
    if k > 0 {
      BitOfByte(c / 2, k - 1);
      assert c / 2 / [1, 2, 4, 8, 16, 32, 64, 128][k - 1] == c / [1, 2, 4, 8, 16, 32, 64, 128][k];
    }
  }

  /** The bitmap of the image is the bitmap of the kernel. */
  lemma BitmapRead(sb: Super, blocks: seq<Block>, b: nat)
    requires BBlock(sb, b) < |blocks|
    ensures RawUsed(blocks, sb.bmapstart, b) <==> BitAt(sb, blocks, b)
  {
    hide BitOf;
    var c := BBlock(sb, b);
    assert 1024 * sb.bmapstart + b / 8 == 1024 * c + b % BPB / 8 && b % BPB % 8 == b % 8;
    RawAt(blocks, c, b % BPB / 8);
    BitOfByte(blocks[c][b % BPB / 8], b % 8);
  }

  /** What a crash in the middle of a write leaves on the disk, byte by byte. */
  lemma WriteRead(sb: Super, d: seq<Block>, b0: seq<Block>, n0: Inodes, ip: nat, off: nat, src: seq<byte>, n: Inodes,
                  k: nat, i: nat)
    requires ShowsWrite(sb, d, b0, n0, ip, off, src, n, k) && AllNoHoles(b0, n0) && off + k <= MAXSIZE && i in n0
    ensures var file := if i == ip then Overlay(Content(b0, n0[i]), off, src[..k]) else Content(b0, n0[i]);
            && RawSize(d, sb.inodestart, i) == |file|
            && forall p: nat :: p < |file| ==> RawByte(d, sb.inodestart, i, p) == file[p]
  {
    hide SyncedAt, RawSize, RawByte;
    assert n0[i].size <= MAXSIZE by { assert NoHoles(b0, n0[i]); }
    assert n[i].size == |Content(d, n[i])|;
    FilesRead(sb, d, n, i);
  }
}
