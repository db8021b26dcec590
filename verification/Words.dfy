/** Fixed-width integers and their little-endian layout in raw memory.

    Disk blocks and physical pages are byte sequences; the kernel overlays
    arrays of 32-bit words (log headers, indirect blocks, on-disk inodes),
    64-bit page-table entries and bitmaps on them.
 */
module Words {

  type byte = x: int | 0 <= x < 256

  const U32: nat := 0x1_0000_0000

  type uint32 = x: int | 0 <= x < 0x1_0000_0000

  /** The little-endian 32-bit word at word index i. */
  function Word(d: seq<byte>, i: nat): (w: uint32)
    requires 4 * i + 4 <= |d|
  {
    var b: seq<int> := d[4 * i..4 * i + 4];
    b[0] + 0x100 * b[1] + 0x1_0000 * b[2] + 0x100_0000 * b[3]
  }

  function Byte0(w: uint32): (b: byte) { w % 0x100 }
  function Byte1(w: uint32): (b: byte) { w / 0x100 % 0x100 }
  function Byte2(w: uint32): (b: byte) { w / 0x1_0000 % 0x100 }
  function Byte3(w: uint32): (b: byte) { w / 0x100_0000 }

  lemma BytesOfWord(w: uint32)
    ensures Byte0(w) + 0x100 * Byte1(w) + 0x1_0000 * Byte2(w) + 0x100_0000 * Byte3(w) == w
  {
    var a := w / 0x100;
    var b := a / 0x100;
    assert w / 0x1_0000 == b;
    assert w / 0x100_0000 == b / 0x100;
  }

  /** Storing a word is undone by loading it and disturbs no other word. */
  function SetWord(d: seq<byte>, i: nat, w: uint32): (r: seq<byte>)
    requires 4 * i + 4 <= |d|
    ensures |r| == |d|
    ensures Word(r, i) == w
    ensures forall j: nat :: j != i && 4 * j + 4 <= |d| ==> Word(r, j) == Word(d, j)
  {
    BytesOfWord(w);
    d[4 * i := Byte0(w)][4 * i + 1 := Byte1(w)][4 * i + 2 := Byte2(w)][4 * i + 3 := Byte3(w)]
  }

  type uint64 = x: int | 0 <= x < 0x1_0000_0000_0000_0000

  /** The little-endian 64-bit word at index i. */
  function Quad(d: seq<byte>, i: nat): (q: uint64)
    requires 8 * i + 8 <= |d|
  {
    Word(d, 2 * i) + 0x1_0000_0000 * Word(d, 2 * i + 1)
  }

  function SetQuad(d: seq<byte>, i: nat, q: uint64): (r: seq<byte>)
    requires 8 * i + 8 <= |d|
    ensures |r| == |d|
    ensures Quad(r, i) == q
    ensures forall j: nat :: j != i && 8 * j + 8 <= |d| ==> Quad(r, j) == Quad(d, j)
  {
    SetWord(SetWord(d, 2 * i, q % 0x1_0000_0000), 2 * i + 1, q / 0x1_0000_0000)
  }

  /** Storing a 64-bit word leaves the bytes outside it alone. */
  lemma SetQuadBytes(d: seq<byte>, i: nat, q: uint64)
    requires 8 * i + 8 <= |d|
    ensures forall k :: 0 <= k < |d| && !(8 * i <= k < 8 * i + 8) ==> SetQuad(d, i, q)[k] == d[k]
  {
  }

  function Zeroes(n: nat): (z: seq<byte>)
    ensures |z| == n
    ensures forall k :: 0 <= k < n ==> z[k] == 0
    ensures forall i: nat :: 4 * i + 4 <= n ==> Word(z, i) == 0
    ensures forall i: nat :: 8 * i + 8 <= n ==> Quad(z, i) == 0
  {
    seq(n, _ => 0)
  }

  /** 1 << k. */
  function Mask(k: nat): (m: nat)
    ensures m > 0
  {
    if k == 0 then 1 else 2 * Mask(k - 1)
  }

  /** Bit k of a number: (b & (1 << k)) != 0. */
  predicate BitOf(b: nat, k: nat)
    decreases k
  {
    if k == 0 then b % 2 == 1 else BitOf(b / 2, k - 1)
  }

  /** b ^ (1 << k): sets a clear bit, clears a set bit. */
  function Flip(b: nat, k: nat): (r: nat)
    ensures BitOf(r, k) != BitOf(b, k)
    decreases k
  {
    if k == 0 then (if b % 2 == 0 then b + 1 else b - 1)
    else b % 2 + 2 * Flip(b / 2, k - 1)
  }

  lemma {:induction false} FlipOthers(b: nat, k: nat, j: nat)
    requires j != k
    ensures BitOf(Flip(b, k), j) == BitOf(b, j)
    decreases k
  {
    if k > 0 {
      assert Flip(b, k) / 2 == Flip(b / 2, k - 1);
      if j > 0 { FlipOthers(b / 2, k - 1, j - 1); }
    }
  }

  lemma {:induction false} FlipByte(b: nat, k: nat, n: nat)
    requires k < n && b < Mask(n)
    ensures Flip(b, k) < Mask(n)
    decreases k
  {
    if k > 0 { FlipByte(b / 2, k - 1, n - 1); }
  }

  /** data[i/8] & (1 << i%8), as balloc and bfree test it. */
  predicate Bit(d: seq<byte>, i: nat)
    requires i / 8 < |d|
  {
    BitOf(d[i / 8], i % 8)
  }

  /** data[i/8] |= m when the bit is clear, data[i/8] &= ~m when it is set. */
  function FlipBit(d: seq<byte>, i: nat): (r: seq<byte>)
    requires i / 8 < |d|
    ensures |r| == |d|
    ensures Bit(r, i) != Bit(d, i)
    ensures forall j: nat :: j != i && j / 8 < |d| ==> Bit(r, j) == Bit(d, j)
  {
    assert Mask(8) == 256;
    FlipByte(d[i / 8], i % 8, 8);
    var r: seq<byte> := d[i / 8 := Flip(d[i / 8], i % 8)];
    assert forall j: nat :: j != i && j / 8 < |d| ==> Bit(r, j) == Bit(d, j) by {
      forall j: nat | j != i && j / 8 < |d| ensures Bit(r, j) == Bit(d, j) {
        if j / 8 == i / 8 { FlipOthers(d[i / 8], i % 8, j % 8); }
      }
    }
    r
  }
}
