/** Reading and writing through an open file: kernel/file.c's fileread, and its filewrite,
    which cuts a write into transactions small enough for the log reservation. */
module OpenFile {
  import opened Words
  import opened BufferCache
  import opened LogSpec
  import opened FsLayout
  import opened FileContent
  import opened FileSystem
  import opened Wrappers

  const MAXCHUNK: nat := 3072  // ((MAXOPBLOCKS - 1 - 1 - 2) / 2) * BSIZE

  /** What a chunk logs at most on a disk with one bitmap block: four data blocks, the bitmap
      block, the indirect block and the inode's block. */
  const ONEBITMAP: nat := 7

  /** A write of at most MAXCHUNK bytes, at any offset, logs at most MAXOPBLOCKS blocks. */
  lemma ChunkFitsReservation(off: nat, n: nat)
    requires n <= MAXCHUNK
    ensures MAXCHUNK == ((MAXOPBLOCKS - 1 - 1 - 2) / 2) * BSIZE
    ensures DataLog(off, n) + 3 <= MAXOPBLOCKS
    ensures DataBlocks(off, n) + 3 <= ONEBITMAP
  {
  }

  lemma OverlayTwice(s: seq<byte>, off: nat, a: seq<byte>, b: seq<byte>)
    requires off <= |s|
    ensures Overlay(Overlay(s, off, a), off + |a|, b) == Overlay(s, off, a + b)
  {
  }

  lemma OverlayNothing(s: seq<byte>, off: nat)
    requires off <= |s|
    ensures Overlay(s, off, []) == s
  {
  }

  lemma RewrittenNone(blocks: seq<Block>, inodes: Inodes, i: nat, off: nat)
    requires i in inodes && off <= inodes[i].size && AllNoHoles(blocks, inodes)
    ensures Rewritten(blocks, inodes, blocks, inodes, i, off, [], 0)
  {
    hide AllNoHoles, Content, Overlay;
    OverlayNothing(Content(blocks, inodes[i]), off);
  }

  lemma RewrittenFacts(b0: seq<Block>, n0: Inodes, b1: seq<Block>, n1: Inodes, i: nat, off: nat, d: seq<byte>, tot: nat)
    requires Rewritten(b0, n0, b1, n1, i, off, d, tot)
    ensures AllNoHoles(b1, n1) && i in n0 && i in n1 && off <= n0[i].size
    ensures n1[i].size == if off + tot > n0[i].size then off + tot else n0[i].size
  {
  }

  /** One more chunk, complete (tot == |d|) or cut short. */
  lemma RewrittenTwice(b0: seq<Block>, n0: Inodes, b1: seq<Block>, n1: Inodes, b2: seq<Block>, n2: Inodes,
                       i: nat, off: nat, src: seq<byte>, done: nat, d: seq<byte>, tot: nat)
    requires i in n0 && off <= n0[i].size && done + |d| <= |src| && d == src[done..done + |d|]
    requires Rewritten(b0, n0, b1, n1, i, off, src[..done], done)
    requires Rewritten(b1, n1, b2, n2, i, off + done, d, tot)
    ensures Rewritten(b0, n0, b2, n2, i, off, src[..done + |d|], done + tot)
  {
    hide AllNoHoles, Content, Overlay;
    assert src[..done + |d|] == src[..done] + d;
    var c0 := Content(b0, n0[i]);
    OverlayTwice(c0, off, src[..done], d);
    var c1 := Overlay(c0, off, src[..done]);
    assert c1[..n1[i].size] == c1;
  }

  /** What a write leaves behind: nothing happens at an offset past the end of the file. */
  ghost predicate Outcome(b0: seq<Block>, n0: Inodes, b1: seq<Block>, n1: Inodes, i: nat, off: nat, d: seq<byte>,
                          tot: nat)
    requires i in n0
  {
    if off > n0[i].size then b1 == b0 && n1 == n0 && d == [] && tot == 0
    else Rewritten(b0, n0, b1, n1, i, off, d, tot)
  }

  lemma OutcomeNone(blocks: seq<Block>, inodes: Inodes, i: nat, off: nat, src: seq<byte>)
    requires i in inodes && AllNoHoles(blocks, inodes)
    ensures Outcome(blocks, inodes, blocks, inodes, i, off, src[..0], 0)
  {
    hide AllNoHoles, Rewritten;
    assert src[..0] == [];
    if off <= inodes[i].size { RewrittenNone(blocks, inodes, i, off); }
  }

  lemma OutcomeFacts(b0: seq<Block>, n0: Inodes, b1: seq<Block>, n1: Inodes, i: nat, off: nat, d: seq<byte>, tot: nat)
    requires i in n0 && AllNoHoles(b0, n0) && Outcome(b0, n0, b1, n1, i, off, d, tot)
    ensures AllNoHoles(b1, n1) && i in n1
    ensures n1[i].size == if off <= n0[i].size && off + tot > n0[i].size then off + tot else n0[i].size
    ensures off > n0[i].size ==> tot == 0
  {
    hide AllNoHoles, Rewritten;
    if off <= n0[i].size { RewrittenFacts(b0, n0, b1, n1, i, off, d, tot); }
  }

  lemma OutcomeMore(b0: seq<Block>, n0: Inodes, b1: seq<Block>, n1: Inodes, b2: seq<Block>, n2: Inodes,
                    i: nat, off: nat, src: seq<byte>, done: nat, d: seq<byte>, tot: nat)
    requires i in n0 && off <= n0[i].size && done + |d| <= |src| && d == src[done..done + |d|]
    requires Outcome(b0, n0, b1, n1, i, off, src[..done], done) && Rewritten(b1, n1, b2, n2, i, off + done, d, tot)
    ensures Outcome(b0, n0, b2, n2, i, off, src[..done + |d|], done + tot) && AllNoHoles(b2, n2) && i in n2
  {
    hide AllNoHoles, Rewritten;
    RewrittenTwice(b0, n0, b1, n1, b2, n2, i, off, src, done, d, tot);
    RewrittenFacts(b0, n0, b2, n2, i, off, src[..done + |d|], done + tot);
  }

  class OpenFile {
    const fs: FileSystem
    const ip: nat
    var off: uint32

    constructor (fs: FileSystem, ip: nat, off: uint32)
      ensures this.fs == fs && this.ip == ip && this.off == off
    {
      this.fs, this.ip, this.off := fs, ip, off;
    }

    /** One transaction: writei between begin_op and end_op, after which the offset moves on. */
    method WriteTransaction(src: seq<byte>, readable: nat) returns (r: WriteResult)
      requires FsOk(fs.sb, fs.blocks, fs.inodes, fs.owner, {}) && AllNoHoles(fs.blocks, fs.inodes) && ip in fs.inodes
      requires |src| <= MAXCHUNK && readable <= |src|
      modifies this, fs
      ensures FsOk(fs.sb, fs.blocks, fs.inodes, fs.owner, {})
      ensures |fs.logged| <= MAXOPBLOCKS || r.OutOfBlocks?
      ensures fs.sb.size <= BPB ==> |fs.logged| <= ONEBITMAP || r.OutOfBlocks?
      ensures r.Rejected? <==> old(off) > old(fs.inodes)[ip].size || old(off) + |src| > MAXSIZE
      ensures r.Rejected? ==> fs.blocks == old(fs.blocks) && fs.inodes == old(fs.inodes) && off == old(off)
      ensures r.OutOfBlocks? ==> forall x: nat :: x < fs.sb.size ==> BitAt(fs.sb, fs.blocks, x)
      ensures r.Written? ==>
                && off == old(off) + r.tot
                && WholeChunks(old(off), |src|, readable, r.tot)
                && Rewritten(old(fs.blocks), old(fs.inodes), fs.blocks, fs.inodes, ip, old(off), src[..readable], r.tot)
                && (Synced(fs.sb, old(fs.blocks), old(fs.inodes)) ==> Synced(fs.sb, fs.blocks, fs.inodes))
      ensures r.Written? && readable == |src| ==> Logs(fs.sb, old(fs.blocks), [], {}, fs.blocks, fs.trace, fs.logged)
    {
      hide FsOk, AllNoHoles, Rewritten, Synced, BitAt, DataLog, DataBlocks, Logs;
      fs.BeginOp();
      ChunkFitsReservation(off, |src|);
      r := fs.Writei(ip, off, src, readable);
      if r.Written? { off := off + r.tot; }
    }

    /** Write src through the open file; ret is None when the disk ran out of blocks.
        `done` bytes were written by complete chunks, `stored` reached the cache. */
    method Filewrite(src: seq<byte>, readable: nat) returns (ret: Option<int>, ghost done: nat, ghost stored: nat)
      requires FsOk(fs.sb, fs.blocks, fs.inodes, fs.owner, {}) && AllNoHoles(fs.blocks, fs.inodes) && ip in fs.inodes
      requires readable <= |src| < 0x8000_0000
      modifies this, fs
      ensures FsOk(fs.sb, fs.blocks, fs.inodes, fs.owner, {})
      ensures ret.None? ==> forall x: nat :: x < fs.sb.size ==> BitAt(fs.sb, fs.blocks, x)
      ensures ret.Some? ==>
                && (ret.value == |src| || ret.value == -1)
                && (ret.value == |src| <==>
                      |src| == 0 ||
                      (readable == |src| && old(off) <= old(fs.inodes)[ip].size && old(off) + |src| <= MAXSIZE))
                && off == old(off) + done && done <= stored <= readable
                && (ret.value == |src| ==> done == stored == |src|)
                && Outcome(old(fs.blocks), old(fs.inodes), fs.blocks, fs.inodes, ip, old(off), src[..stored], done)
                && (Synced(fs.sb, old(fs.blocks), old(fs.inodes)) ==> Synced(fs.sb, fs.blocks, fs.inodes))
    {
      hide FsOk, AllNoHoles, Rewritten, Outcome, Synced, BitAt, WholeChunks;
      ghost var b0, n0, off0 := fs.blocks, fs.inodes, off;
      var i := 0;
      OutcomeNone(b0, n0, ip, off, src);
      while i < |src|
        invariant i <= readable && off == off0 + i
        invariant ip in fs.inodes && AllNoHoles(fs.blocks, fs.inodes)
        invariant FsOk(fs.sb, fs.blocks, fs.inodes, fs.owner, {})
        invariant Outcome(b0, n0, fs.blocks, fs.inodes, ip, off0, src[..i], i)
        invariant i > 0 ==> off0 <= n0[ip].size && off0 + i <= MAXSIZE
        invariant Synced(fs.sb, b0, n0) ==> Synced(fs.sb, fs.blocks, fs.inodes)
      {
        var n1 := if |src| - i > MAXCHUNK then MAXCHUNK else |src| - i;
        var end := if i + n1 <= readable then i + n1 else readable;
        ghost var b1, m1 := fs.blocks, fs.inodes;
        OutcomeFacts(b0, n0, b1, m1, ip, off0, src[..i], i);
        var r := WriteTransaction(src[i..i + n1], end - i);
        if r.OutOfBlocks? { return None, i, i; }
        if r.Rejected? { return Some(-1), i, i; }
        assert src[i..i + n1][..end - i] == src[i..end];
        TotBounds(off0 + i, n1, end - i, r.tot);
        OutcomeMore(b0, n0, b1, m1, fs.blocks, fs.inodes, ip, off0, src, i, src[i..end], r.tot);
        if r.tot != n1 { return Some(-1), i + r.tot, end; }
        i := i + r.tot;
      }
      return Some(|src|), i, i;
    }

    /** Read up to n bytes at the offset of the open file, which moves on by what was read. */
    method Fileread(n: uint32, writable: nat) returns (r: int, dst: seq<byte>)
      requires FsOk(fs.sb, fs.blocks, fs.inodes, fs.owner, {}) && ip in fs.inodes && NoHoles(fs.blocks, fs.inodes[ip])
      modifies this, fs
      ensures unchanged(fs) && off == old(off) + (if r > 0 then r else 0)
      ensures old(off) > fs.inodes[ip].size || old(off) + n >= U32 ==> r == 0 && dst == []
      ensures old(off) <= fs.inodes[ip].size && old(off) + n < U32 ==>
                var size := fs.inodes[ip].size;
                && (r == -1 <==> writable < n && old(off) + writable < size)
                && (r != -1 ==> 0 <= r <= n && old(off) + r <= size && (r == n || old(off) + r == size))
                && dst == Content(fs.blocks, fs.inodes[ip])[old(off)..old(off) + if r == -1 then writable else r]
    {
      hide FsOk, NoHoles, Content;
      r, dst := fs.Readi(ip, off, n, writable);
      if r > 0 { off := off + r; }
    }
  }

  // ---- Reading and writing together -------------------------------------

  /** What a write leaves between its offset and its end. */
  lemma OverlayAt(s: seq<byte>, off: nat, d: seq<byte>)
    requires off <= |s|
    ensures Overlay(s, off, d)[off..off + |d|] == d && Overlay(s, off, d)[..off] == s[..off]
    ensures off + |d| <= |s| ==> Overlay(s, off, d)[off + |d|..] == s[off + |d|..]
  {
  }

  lemma WrittenIsThere(b0: seq<Block>, n0: Inodes, b1: seq<Block>, n1: Inodes, i: nat, off: nat, d: seq<byte>)
    requires Rewritten(b0, n0, b1, n1, i, off, d, |d|)
    ensures i in n1 && NoHoles(b1, n1[i]) && off + |d| <= n1[i].size && Content(b1, n1[i])[off..off + |d|] == d
  {
    hide Content, Overlay;
    var o := Overlay(Content(b0, n0[i]), off, d);
    OverlayAt(Content(b0, n0[i]), off, d);
    assert o[..n1[i].size] == o;
  }

  lemma SizeBound(blocks: seq<Block>, ino: Inode)
    requires NoHoles(blocks, ino)
    ensures ino.size <= MAXSIZE
  {
  }

  lemma PrefixOfSlice(s: seq<byte>, a: nat, b: nat, c: nat, d: seq<byte>)
    requires a <= b <= c <= |s| && s[a..b] == d
    ensures s[a..c][..b - a] == d
  {
  }

  /** What was written through one open file is read through another at the same place. */
  method WriteThenRead(f: OpenFile, g: OpenFile, src: seq<byte>, n: uint32) returns (ret: Option<int>, dst: seq<byte>)
    requires f != g && f.fs == g.fs && f.ip == g.ip && f.off == g.off && |src| <= n < 0x8000_0000
    requires FsOk(f.fs.sb, f.fs.blocks, f.fs.inodes, f.fs.owner, {}) && AllNoHoles(f.fs.blocks, f.fs.inodes)
    requires f.ip in f.fs.inodes && f.off <= f.fs.inodes[f.ip].size
    modifies f, g, f.fs
    ensures FsOk(f.fs.sb, f.fs.blocks, f.fs.inodes, f.fs.owner, {})
    ensures ret.None? ==> forall x: nat :: x < f.fs.sb.size ==> BitAt(f.fs.sb, f.fs.blocks, x)
    ensures ret.Some? ==> (ret.value == |src| <==> |src| == 0 || old(f.off) + |src| <= MAXSIZE)
    ensures ret == Some(|src|) ==> |src| <= |dst| && dst[..|src|] == src
  {
    hide FsOk, AllNoHoles, Rewritten, BitAt, Content, NoHoles, Overlay;
    ghost var b0, n0 := f.fs.blocks, f.fs.inodes;
    var at := f.off;
    ghost var done, stored;
    ret, done, stored := f.Filewrite(src, |src|);
    dst := [];
    if ret == Some(|src|) {
      assert src[..|src|] == src;
      WrittenIsThere(b0, n0, f.fs.blocks, f.fs.inodes, f.ip, at, src);
      SizeBound(f.fs.blocks, f.fs.inodes[f.ip]);
      var r;
      r, dst := g.Fileread(n, n);
      PrefixOfSlice(Content(f.fs.blocks, f.fs.inodes[f.ip]), at, at + |src|, at + r, src);
    }
  }

  /** Reading n bytes at a time until nothing comes gives the file from the offset on. */
  method ReadAll(f: OpenFile, n: uint32) returns (all: seq<byte>)
    requires FsOk(f.fs.sb, f.fs.blocks, f.fs.inodes, f.fs.owner, {}) && f.ip in f.fs.inodes
    requires NoHoles(f.fs.blocks, f.fs.inodes[f.ip]) && f.off <= f.fs.inodes[f.ip].size && 0 < n < 0x8000_0000
    modifies f, f.fs
    ensures unchanged(f.fs) && f.off == f.fs.inodes[f.ip].size
    ensures all == Content(f.fs.blocks, f.fs.inodes[f.ip])[old(f.off)..]
  {
    hide FsOk, Content, NoHoles;
    ghost var content, size := Content(f.fs.blocks, f.fs.inodes[f.ip]), f.fs.inodes[f.ip].size;
    SizeBound(f.fs.blocks, f.fs.inodes[f.ip]);
    all := [];
    while true
      invariant unchanged(f.fs) && old(f.off) <= f.off <= size && all == content[old(f.off)..f.off]
      decreases size - f.off
    {
      ghost var from := f.off;
      var r, dst := f.Fileread(n, n);
      if r <= 0 { return; }
      SliceJoin(content, old(f.off), from, f.off);
      all := all + dst;
    }
  }
}
