/** The storage allocator of user/umalloc.c (Kernighan and Ritchie, section 8.7).

    Addresses count units of one Header (16 bytes).  Every block starts with a
    header that holds its size and, while it is free, the address of the next
    free block.
 */
module Umalloc {
  import opened Wrappers


  datatype Block = Block(addr: nat, size: nat)

  const LIMIT: nat := 0x1000_0000  // 2^32 bytes in units

  // ---- The free list as a sequence of blocks ----------------------------

  /** Free blocks in address order after the empty block at base; no two of them touch. */
  ghost predicate Ring(base: nat, ring: seq<Block>)
  {
    && |ring| > 0 && ring[0] == Block(base, 0) && base > 0
    && (forall i :: 0 < i < |ring| ==> ring[i].size > 0)
    && (forall i, j :: 0 <= i < j < |ring| ==> ring[i].addr + ring[i].size < ring[j].addr)
  }

  function Succ(ring: seq<Block>, i: nat): (j: nat)
    requires i < |ring|
    ensures j < |ring|
  {
    if i + 1 < |ring| then i + 1 else 0
  }

  /** The header of block i says what the ring says. */
  ghost predicate NodeOk(ptr: map<nat, nat>, size: map<nat, nat>, ring: seq<Block>, i: nat)
    requires i < |ring|
  {
    var a := ring[i].addr;
    a in ptr && a in size && size[a] == ring[i].size && ptr[a] == ring[Succ(ring, i)].addr
  }

  ghost predicate Linked(ptr: map<nat, nat>, size: map<nat, nat>, ring: seq<Block>)
  {
    forall i: nat {:trigger NodeOk(ptr, size, ring, i)} :: i < |ring| ==> NodeOk(ptr, size, ring, i)
  }

  predicate In(u: nat, a: nat, n: nat)
  {
    a <= u < a + n
  }

  ghost function Units(a: nat, n: nat): (s: set<nat>)
    ensures forall u: nat :: u in s <==> In(u, a, n)
  {
    set u: nat | u < a + n && In(u, a, n)
  }

  lemma UnitsJoin(a: nat, n: nat, m: nat)
    ensures Units(a, n + m) == Units(a, n) + Units(a + n, m)
  {
  }

  ghost function FreeUnits(ring: seq<Block>): (s: set<nat>)
  {
    if ring == [] then {} else FreeUnits(ring[..|ring| - 1]) + Units(ring[|ring| - 1].addr, ring[|ring| - 1].size)
  }

  lemma {:induction false} FreeUnitsAppend(a: seq<Block>, b: seq<Block>)
    ensures FreeUnits(a + b) == FreeUnits(a) + FreeUnits(b)
  {
    if b == [] {
      assert a + b == a;
    } else {
      var m := |b| - 1;
      assert (a + b)[..|a + b| - 1] == a + b[..m];
      FreeUnitsAppend(a, b[..m]);
    }
  }

  lemma FreeUnitsLast(a: seq<Block>, b: Block)
    ensures FreeUnits(a + [b]) == FreeUnits(a) + Units(b.addr, b.size)
  {
    FreeUnitsAppend(a, [b]);
    assert [b][..0] == [];
  }

  lemma FreeUnitsMiddle(a: seq<Block>, b: Block, c: seq<Block>)
    ensures FreeUnits(a + [b] + c) == FreeUnits(a) + Units(b.addr, b.size) + FreeUnits(c)
  {
    FreeUnitsAppend(a + [b], c);
    FreeUnitsLast(a, b);
  }

  lemma {:induction false} FreeUnitsOf(ring: seq<Block>, u: nat)
    requires u in FreeUnits(ring)
    ensures exists i :: 0 <= i < |ring| && In(u, ring[i].addr, ring[i].size)
  {
    var m := |ring| - 1;
    if u in FreeUnits(ring[..m]) {
      FreeUnitsOf(ring[..m], u);
      var i :| 0 <= i < m && In(u, ring[..m][i].addr, ring[..m][i].size);
      assert ring[i] == ring[..m][i];
    }
  }

  // ---- Freeing ----------------------------------------------------------

  /** b goes right behind block t and fits there. */
  ghost predicate Fits(ring: seq<Block>, t: nat, b: Block)
  {
    && t < |ring| && b.size > 0 && ring[t].addr + ring[t].size <= b.addr
    && (t + 1 < |ring| ==> b.addr + b.size <= ring[t + 1].addr)
  }

  predicate Touch(x: Block, y: Block)
  {
    x.addr + x.size == y.addr
  }

  function Joined(x: Block, y: Block): (b: Block)
  {
    Block(x.addr, x.size + y.size)
  }

  /** Block b behind block t of the ring, joined with its right neighbour if they touch. */
  function PutRight(ring: seq<Block>, t: nat, b: Block): (r: seq<Block>)
    requires t < |ring|
  {
    if t + 1 < |ring| && Touch(b, ring[t + 1]) then ring[..t + 1] + [Joined(b, ring[t + 1])] + ring[t + 2..]
    else ring[..t + 1] + [b] + ring[t + 1..]
  }

  /** Block t + 1 joined with block t if they touch. */
  function JoinLeft(ring: seq<Block>, t: nat): (r: seq<Block>)
    requires t + 1 < |ring|
  {
    if Touch(ring[t], ring[t + 1]) then ring[..t] + [Joined(ring[t], ring[t + 1])] + ring[t + 2..] else ring
  }

  /** What free makes of the ring. */
  function Inserted(ring: seq<Block>, t: nat, b: Block): (r: seq<Block>)
    requires t < |ring|
  {
    JoinLeft(PutRight(ring, t, b), t)
  }

  /** A ring except that blocks t and t + 1 may touch. */
  ghost predicate AlmostRing(base: nat, ring: seq<Block>, t: nat)
  {
    && |ring| > t + 1 && ring[0] == Block(base, 0) && base > 0
    && (forall i :: 0 < i < |ring| ==> ring[i].size > 0)
    && (forall i, j :: 0 <= i < j < |ring| && !(i == t && j == t + 1) ==> ring[i].addr + ring[i].size < ring[j].addr)
    && ring[t].addr + ring[t].size <= ring[t + 1].addr
  }

  lemma PutRightRing(base: nat, ring: seq<Block>, t: nat, b: Block)
    requires Ring(base, ring) && Fits(ring, t, b)
    ensures AlmostRing(base, PutRight(ring, t, b), t)
    ensures PutRight(ring, t, b)[t] == ring[t] && PutRight(ring, t, b)[t + 1].addr == b.addr
    ensures PutRight(ring, t, b)[t + 1].size >= b.size
  {
    hide Ring, AlmostRing, Fits;
    assert t < |ring| by { InRing(ring, t, b); }
    if t + 1 < |ring| && Touch(b, ring[t + 1]) { PutTouching(base, ring, t, b); } else { PutBetween(base, ring, t, b); }
  }

  lemma InRing(ring: seq<Block>, t: nat, b: Block)
    requires Fits(ring, t, b)
    ensures t < |ring|
  {
  }

  lemma PutTouching(base: nat, ring: seq<Block>, t: nat, b: Block)
    requires Ring(base, ring) && Fits(ring, t, b) && t + 1 < |ring| && Touch(b, ring[t + 1])
    ensures AlmostRing(base, ring[..t + 1] + [Joined(b, ring[t + 1])] + ring[t + 2..], t)
  {
    var r := ring[..t + 1] + [Joined(b, ring[t + 1])] + ring[t + 2..];
    forall i, j | 0 <= i < j < |r| && !(i == t && j == t + 1) ensures r[i].addr + r[i].size < r[j].addr {
    }
  }

  lemma PutBetween(base: nat, ring: seq<Block>, t: nat, b: Block)
    requires Ring(base, ring) && Fits(ring, t, b) && (t + 1 < |ring| ==> !Touch(b, ring[t + 1]))
    ensures AlmostRing(base, ring[..t + 1] + [b] + ring[t + 1..], t)
  {
    BetweenEnds(base, ring, t, b);
    hide Ring, Fits, Touch;
    var r := ring[..t + 1] + [b] + ring[t + 1..];
    forall i, j | 0 <= i < j < |r| && !(i == t && j == t + 1) ensures r[i].addr + r[i].size < r[j].addr {
      BetweenOrder(base, ring, t, b, i, j);
      assert r[i] == BetweenAt(ring, t, b, i) && r[j] == BetweenAt(ring, t, b, j);
    }
  }

  lemma BetweenEnds(base: nat, ring: seq<Block>, t: nat, b: Block)
    requires Ring(base, ring) && Fits(ring, t, b)
    ensures t < |ring| && ring[0] == Block(base, 0) && base > 0 && b.size > 0
    ensures forall i :: 0 < i < |ring| ==> ring[i].size > 0
    ensures ring[t].addr + ring[t].size <= b.addr
  {
  }

  /** Entry i of the ring with b behind entry t. */
  function BetweenAt(ring: seq<Block>, t: nat, b: Block, i: nat): (x: Block)
    requires t < |ring| && i <= |ring|
  {
    if i <= t then ring[i] else if i == t + 1 then b else ring[i - 1]
  }

  lemma BetweenOrder(base: nat, ring: seq<Block>, t: nat, b: Block, i: nat, j: nat)
    requires Ring(base, ring) && Fits(ring, t, b) && (t + 1 < |ring| ==> !Touch(b, ring[t + 1]))
    requires i < j <= |ring| && !(i == t && j == t + 1)
    ensures BetweenAt(ring, t, b, i).addr + BetweenAt(ring, t, b, i).size < BetweenAt(ring, t, b, j).addr
  {
  }

  lemma JoinLeftRing(base: nat, ring: seq<Block>, t: nat)
    requires AlmostRing(base, ring, t) && ring[t + 1].addr > base
    ensures Ring(base, JoinLeft(ring, t))
  {
    var r := JoinLeft(ring, t);
    forall i, j | 0 <= i < j < |r| ensures r[i].addr + r[i].size < r[j].addr {
    }
  }

  lemma PutRightUnits(ring: seq<Block>, t: nat, b: Block)
    requires t < |ring|
    ensures FreeUnits(PutRight(ring, t, b)) == FreeUnits(ring) + Units(b.addr, b.size)
  {
    hide FreeUnits;
    var a := ring[..t + 1];
    if t + 1 < |ring| && Touch(b, ring[t + 1]) {
      var y := ring[t + 1];
      assert ring == a + [y] + ring[t + 2..];
      FreeUnitsMiddle(a, y, ring[t + 2..]);
      FreeUnitsMiddle(a, Joined(b, y), ring[t + 2..]);
      UnitsJoin(b.addr, b.size, y.size);
    } else {
      assert ring == a + ring[t + 1..];
      FreeUnitsAppend(a, ring[t + 1..]);
      FreeUnitsMiddle(a, b, ring[t + 1..]);
    }
  }

  lemma FreeUnitsPair(a: seq<Block>, x: Block, y: Block, c: seq<Block>)
    requires Touch(x, y)
    ensures FreeUnits(a + [x] + [y] + c) == FreeUnits(a + [Joined(x, y)] + c)
  {
    hide FreeUnits;
    FreeUnitsMiddle(a + [x], y, c);
    FreeUnitsLast(a, x);
    FreeUnitsMiddle(a, Joined(x, y), c);
    UnitsJoin(x.addr, x.size, y.size);
    hide Units;
  }

  lemma SplitPair(ring: seq<Block>, t: nat)
    requires t + 1 < |ring|
    ensures ring == ring[..t] + [ring[t]] + [ring[t + 1]] + ring[t + 2..]
  {
  }

  lemma JoinLeftUnits(ring: seq<Block>, t: nat)
    requires t + 1 < |ring|
    ensures FreeUnits(JoinLeft(ring, t)) == FreeUnits(ring)
  {
    hide FreeUnits, Touch, Joined;
    if Touch(ring[t], ring[t + 1]) {
      SplitPair(ring, t);
      FreeUnitsPair(ring[..t], ring[t], ring[t + 1], ring[t + 2..]);
    }
  }

  // ---- Allocating -------------------------------------------------------

  /** The ring after n units were taken from the end of block i. */
  function Taken(ring: seq<Block>, i: nat, n: nat): (r: seq<Block>)
    requires i < |ring|
  {
    if ring[i].size <= n then ring[..i] + ring[i + 1..] else ring[i := Block(ring[i].addr, ring[i].size - n)]
  }

  lemma TakenRing(base: nat, ring: seq<Block>, i: nat, n: nat)
    requires Ring(base, ring) && 0 < i < |ring| && 0 < n <= ring[i].size
    ensures Ring(base, Taken(ring, i, n))
  {
    var r := Taken(ring, i, n);
    forall j, k | 0 <= j < k < |r| ensures r[j].addr + r[j].size < r[k].addr {
    }
  }

  lemma TakenUnits(ring: seq<Block>, i: nat, n: nat)
    requires i < |ring| && n <= ring[i].size
    ensures FreeUnits(ring) == FreeUnits(Taken(ring, i, n)) + Units(ring[i].addr + ring[i].size - n, n)
  {
    hide FreeUnits;
    var b, a, c := ring[i], ring[..i], ring[i + 1..];
    assert ring == a + [b] + c;
    FreeUnitsMiddle(a, b, c);
    UnitsJoin(b.addr, b.size - n, n);
    if b.size > n {
      var b1 := Block(b.addr, b.size - n);
      assert Taken(ring, i, n) == a + [b1] + c;
      FreeUnitsMiddle(a, b1, c);
    } else {
      FreeUnitsAppend(a, c);
    }
  }

  lemma TakenApart(base: nat, ring: seq<Block>, i: nat, n: nat)
    requires Ring(base, ring) && 0 < i < |ring| && 0 < n <= ring[i].size
    ensures FreeUnits(Taken(ring, i, n)) !! Units(ring[i].addr + ring[i].size - n, n)
  {
    var r := Taken(ring, i, n);
    forall u | u in FreeUnits(r) ensures u !in Units(ring[i].addr + ring[i].size - n, n) {
      FreeUnitsOf(r, u);
      var j :| 0 <= j < |r| && In(u, r[j].addr, r[j].size);
    }
  }

  // ---- Headers ----------------------------------------------------------

  /** All headers but that of block t are right; its size is. */
  ghost predicate LinkedBut(ptr: map<nat, nat>, size: map<nat, nat>, ring: seq<Block>, t: nat)
  {
    && t < |ring| && ring[t].addr in ptr && ring[t].addr in size && size[ring[t].addr] == ring[t].size
    && forall i: nat {:trigger NodeOk(ptr, size, ring, i)} :: i < |ring| && i != t ==> NodeOk(ptr, size, ring, i)
  }

  ghost predicate NotIn(ring: seq<Block>, a: nat)
  {
    forall i :: 0 <= i < |ring| ==> ring[i].addr != a
  }

  /** The first half of free: the header of b. */
  lemma HeaderPut(ptr: map<nat, nat>, size: map<nat, nat>, ring: seq<Block>, t: nat, b: Block)
    requires Linked(ptr, size, ring) && t < |ring| && NotIn(ring, b.addr) && b.addr > ring[0].addr
    requires b.addr in size && size[b.addr] == b.size
    ensures ring[t].addr in ptr
    ensures var next := ptr[ring[t].addr];
            && next in size && next in ptr && (b.addr + b.size == next <==> t + 1 < |ring| && Touch(b, ring[t + 1]))
            && (b.addr + b.size == next ==>
                  LinkedBut(ptr[b.addr := ptr[next]], size[b.addr := b.size + size[next]], PutRight(ring, t, b), t))
            && (b.addr + b.size != next ==> LinkedBut(ptr[b.addr := next], size, PutRight(ring, t, b), t))
  {
    assert NodeOk(ptr, size, ring, t) && NodeOk(ptr, size, ring, Succ(ring, t));
    if t + 1 < |ring| && Touch(b, ring[t + 1]) {
      PutTouchingLinks(ptr, size, ring, t, b);
    } else {
      PutBetweenLinks(ptr, size, ring, t, b);
    }
  }

  lemma PutTouchingLinks(ptr: map<nat, nat>, size: map<nat, nat>, ring: seq<Block>, t: nat, b: Block)
    requires Linked(ptr, size, ring) && t + 1 < |ring| && NotIn(ring, b.addr)
    ensures var y := ring[t + 1];
            && y.addr in ptr
            && LinkedBut(ptr[b.addr := ptr[y.addr]], size[b.addr := b.size + y.size],
                ring[..t + 1] + [Joined(b, y)] + ring[t + 2..], t)
  {
    var y := ring[t + 1];
    assert NodeOk(ptr, size, ring, t) && NodeOk(ptr, size, ring, t + 1);
    var r := ring[..t + 1] + [Joined(b, y)] + ring[t + 2..];
    var ptr', size' := ptr[b.addr := ptr[y.addr]], size[b.addr := b.size + y.size];
    assert |r| == |ring| && forall i :: 0 <= i < |r| && i != t + 1 ==> r[i] == ring[i];
    forall i: nat | i < |r| && i != t ensures NodeOk(ptr', size', r, i) {
      assert NodeOk(ptr, size, ring, i);
    }
  }

  lemma PutBetweenLinks(ptr: map<nat, nat>, size: map<nat, nat>, ring: seq<Block>, t: nat, b: Block)
    requires Linked(ptr, size, ring) && t < |ring| && NotIn(ring, b.addr) && b.addr in size && size[b.addr] == b.size
    ensures ring[t].addr in ptr
    ensures LinkedBut(ptr[b.addr := ptr[ring[t].addr]], size, ring[..t + 1] + [b] + ring[t + 1..], t)
  {
    assert NodeOk(ptr, size, ring, t);
    var r := ring[..t + 1] + [b] + ring[t + 1..];
    var ptr' := ptr[b.addr := ptr[ring[t].addr]];
    forall i: nat | i < |r| && i != t ensures NodeOk(ptr', size, r, i) {
      assert NodeOk(ptr, size, ring, if i <= t then i else i - 1);
    }
  }

  /** The second half: the header of block t. */
  lemma HeaderJoin(base: nat, ptr: map<nat, nat>, size: map<nat, nat>, ring: seq<Block>, t: nat)
    requires AlmostRing(base, ring, t) && ring[t + 1].addr > base && LinkedBut(ptr, size, ring, t)
    ensures var p, bp := ring[t].addr, ring[t + 1].addr;
            && bp in size && bp in ptr
            && (p + size[p] == bp ==> Linked(ptr[p := ptr[bp]], size[p := size[p] + size[bp]], JoinLeft(ring, t)))
            && (p + size[p] != bp ==> Linked(ptr[p := bp], size, JoinLeft(ring, t)))
  {
    var p, bp := ring[t].addr, ring[t + 1].addr;
    assert NodeOk(ptr, size, ring, t + 1);
    forall i: nat | i < |ring| && i != t ensures ring[i].addr != p { AddrsDiffer(base, ring, t, i, t); }
    hide AlmostRing;
    if Touch(ring[t], ring[t + 1]) {
      JoinTouchingLinks(ptr, size, ring, t);
    } else {
      JoinNothingLinks(ptr, size, ring, t);
    }
  }

  lemma JoinTouchingLinks(ptr: map<nat, nat>, size: map<nat, nat>, ring: seq<Block>, t: nat)
    requires t + 1 < |ring| && LinkedBut(ptr, size, ring, t) && ring[t + 1].addr in ptr
    requires forall i: nat :: i < |ring| && i != t ==> ring[i].addr != ring[t].addr
    ensures var p, bp := ring[t], ring[t + 1];
            Linked(ptr[p.addr := ptr[bp.addr]], size[p.addr := p.size + bp.size],
                ring[..t] + [Joined(p, bp)] + ring[t + 2..])
  {
    var p, bp := ring[t], ring[t + 1];
    assert NodeOk(ptr, size, ring, t + 1);
    var r := ring[..t] + [Joined(p, bp)] + ring[t + 2..];
    var ptr', size' := ptr[p.addr := ptr[bp.addr]], size[p.addr := p.size + bp.size];
    forall i: nat | i < |r| ensures NodeOk(ptr', size', r, i) {
      if i != t { assert NodeOk(ptr, size, ring, if i < t then i else i + 1); }
    }
  }

  lemma JoinNothingLinks(ptr: map<nat, nat>, size: map<nat, nat>, ring: seq<Block>, t: nat)
    requires t + 1 < |ring| && LinkedBut(ptr, size, ring, t)
    requires forall i: nat :: i < |ring| && i != t ==> ring[i].addr != ring[t].addr
    ensures Linked(ptr[ring[t].addr := ring[t + 1].addr], size, ring)
  {
    var ptr' := ptr[ring[t].addr := ring[t + 1].addr];
    forall i: nat | i < |ring| ensures NodeOk(ptr', size, ring, i) {
      if i != t { assert NodeOk(ptr, size, ring, i); }
    }
  }

  lemma AddrsDiffer(base: nat, ring: seq<Block>, t: nat, i: nat, j: nat)
    requires AlmostRing(base, ring, t) && ring[t + 1].addr > base && i < |ring| && j < |ring| && i != j
    ensures ring[i].addr != ring[j].addr
  {
  }

  /** malloc's removal of block i, whose predecessor is block j. */
  lemma HeaderRemove(base: nat, ptr: map<nat, nat>, size: map<nat, nat>, ring: seq<Block>, j: nat, i: nat)
    requires Ring(base, ring) && Linked(ptr, size, ring) && j < |ring| && i == Succ(ring, j) && 0 < i
    ensures ring[i].addr in ptr && Linked(ptr[ring[j].addr := ptr[ring[i].addr]], size, ring[..i] + ring[i + 1..])
  {
    assert NodeOk(ptr, size, ring, i) && NodeOk(ptr, size, ring, j);
    forall k: nat | k < |ring| && k != j ensures ring[k].addr != ring[j].addr { }
    hide Ring;
    var r, ptr' := ring[..i] + ring[i + 1..], ptr[ring[j].addr := ptr[ring[i].addr]];
    forall k: nat | k < |r| ensures NodeOk(ptr', size, r, k) {
      NodeRemoved(ptr, size, ring, j, i, k);
    }
  }

  lemma NodeRemoved(ptr: map<nat, nat>, size: map<nat, nat>, ring: seq<Block>, j: nat, i: nat, k: nat)
    requires Linked(ptr, size, ring) && j < |ring| && i == Succ(ring, j) && 0 < i && k < |ring| - 1
    requires forall l: nat :: l < |ring| && l != j ==> ring[l].addr != ring[j].addr
    ensures ring[i].addr in ptr && NodeOk(ptr[ring[j].addr := ptr[ring[i].addr]], size, ring[..i] + ring[i + 1..], k)
  {
    var r, k0 := ring[..i] + ring[i + 1..], if k < i then k else k + 1;
    assert NodeOk(ptr, size, ring, i) && NodeOk(ptr, size, ring, j) && NodeOk(ptr, size, ring, k0);
    assert r[k] == ring[k0];
  }

  /** malloc's shortening of block i: its header, and that of the new block at its end. */
  lemma HeaderShorten(base: nat, ptr: map<nat, nat>, size: map<nat, nat>, ring: seq<Block>, i: nat, n: nat)
    requires Ring(base, ring) && Linked(ptr, size, ring) && 0 < i < |ring| && 0 < n < ring[i].size
    ensures var b := ring[i];
            Linked(ptr, size[b.addr := b.size - n][b.addr + b.size - n := n], ring[i := Block(b.addr, b.size - n)])
  {
    var b := ring[i];
    forall k: nat | k < |ring| ensures ring[k].addr != b.addr + b.size - n && (k != i ==> ring[k].addr != b.addr) { }
    hide Ring;
    var r, size' := ring[i := Block(b.addr, b.size - n)], size[b.addr := b.size - n][b.addr + b.size - n := n];
    forall k: nat | k < |r| ensures NodeOk(ptr, size', r, k) {
      assert NodeOk(ptr, size, ring, k);
    }
  }

  // ---- The heap ---------------------------------------------------------

  ghost function LiveUnits(live: map<nat, nat>): (s: set<nat>)
    ensures forall u: nat :: u in s <==> exists a :: a in live && In(u, a, live[a])
  {
    set a, u: nat | a in live && u < a + live[a] && In(u, a, live[a]) :: u
  }

  /** Live blocks have their sizes in their headers and do not overlap. */
  ghost predicate LiveOk(size: map<nat, nat>, live: map<nat, nat>)
  {
    && (forall a :: a in live ==> a in size && size[a] == live[a] && live[a] > 0)
    && (forall a, b :: a in live && b in live && a < b ==> a + live[a] <= b)
  }

  /** Every unit obtained is in exactly one block, free or live. */
  ghost predicate Accounted(ring: seq<Block>, live: map<nat, nat>, owned: set<nat>, base: nat, top: nat)
  {
    && owned == FreeUnits(ring) + LiveUnits(live) && FreeUnits(ring) !! LiveUnits(live)
    && (forall u :: u in owned ==> base < u < top) && base < top <= LIMIT
  }

  ghost predicate HasAddr(ring: seq<Block>, a: nat)
  {
    exists f :: 0 <= f < |ring| && ring[f].addr == a
  }

  lemma LiveInside(ring: seq<Block>, live: map<nat, nat>, owned: set<nat>, base: nat, top: nat, size: map<nat, nat>,
                   bp: nat)
    requires Accounted(ring, live, owned, base, top) && LiveOk(size, live) && bp in live && Ring(base, ring)
    ensures base < bp && FreeUnits(ring) !! Units(bp, live[bp]) && NotIn(ring, bp)
  {
    assert In(bp, bp, live[bp]);
    assert bp in LiveUnits(live);
    forall u | u in Units(bp, live[bp]) ensures u !in FreeUnits(ring) { assert u in LiveUnits(live); }
    forall i | 0 <= i < |ring| ensures ring[i].addr != bp {
      if i > 0 { InFree(ring, i, ring[i].addr); }
    }
  }

  lemma {:induction false} InFree(ring: seq<Block>, i: nat, u: nat)
    requires i < |ring| && In(u, ring[i].addr, ring[i].size)
    ensures u in FreeUnits(ring)
  {
    var m := |ring| - 1;
    if i < m { assert ring[..m][i] == ring[i]; InFree(ring[..m], i, u); }
  }

  /** Block bp stops being live. */
  lemma LiveMinus(size: map<nat, nat>, live: map<nat, nat>, bp: nat)
    requires LiveOk(size, live) && bp in live
    ensures LiveOk(size, live - {bp}) && LiveUnits(live) == LiveUnits(live - {bp}) + Units(bp, live[bp])
    ensures LiveUnits(live - {bp}) !! Units(bp, live[bp])
  {
    var rest := live - {bp};
    forall u: nat ensures u in LiveUnits(live) <==> u in LiveUnits(rest) + Units(bp, live[bp]) {
      if u in LiveUnits(live) {
        var a :| a in live && In(u, a, live[a]);
        if a != bp { assert a in rest && In(u, a, rest[a]); }
      }
      if u in LiveUnits(rest) {
        var a :| a in rest && In(u, a, rest[a]);
        assert a in live && In(u, a, live[a]);
      }
      if u in Units(bp, live[bp]) { assert In(u, bp, live[bp]); }
    }
  }

  lemma LiveUnitsPlus(live: map<nat, nat>, a: nat, n: nat)
    requires a !in live
    ensures LiveUnits(live[a := n]) == LiveUnits(live) + Units(a, n)
  {
    var more := live[a := n];
    forall u: nat | u in LiveUnits(more) ensures u in LiveUnits(live) + Units(a, n) {
      var b :| b in more && In(u, b, more[b]);
      if b != a { assert b in live && In(u, b, live[b]); }
    }
    forall u: nat | u in LiveUnits(live) ensures u in LiveUnits(more) {
      var b :| b in live && In(u, b, live[b]);
      assert b in more && In(u, b, more[b]);
    }
    forall u: nat | u in Units(a, n) ensures u in LiveUnits(more) { assert a in more && In(u, a, more[a]); }
  }

  lemma NotLive(size: map<nat, nat>, live: map<nat, nat>, a: nat, n: nat)
    requires LiveOk(size, live) && n > 0 && LiveUnits(live) !! Units(a, n)
    ensures a !in live && forall b :: b in live ==> b + live[b] <= a || a + n <= b
  {
    if a in live { OverlapUnit(live, a, a, n); }
    forall b | b in live ensures b + live[b] <= a || a + n <= b {
      if b + live[b] > a && a + n > b { OverlapUnit(live, b, a, n); }
    }
  }

  /** A new live block in units that no live block has. */
  lemma LivePlus(size: map<nat, nat>, live: map<nat, nat>, a: nat, n: nat)
    requires LiveOk(size, live) && a in size && size[a] == n > 0 && LiveUnits(live) !! Units(a, n)
    ensures a !in live && LiveOk(size, live[a := n]) && LiveUnits(live[a := n]) == LiveUnits(live) + Units(a, n)
  {
    NotLive(size, live, a, n);
    LiveUnitsPlus(live, a, n);
    hide LiveUnits, Units;
  }

  lemma OverlapUnit(live: map<nat, nat>, b: nat, a: nat, n: nat)
    requires b in live && n > 0 && live[b] > 0 && b + live[b] > a && a + n > b
    ensures LiveUnits(live) * Units(a, n) != {}
  {
    var u := if b < a then a else b;
    assert In(u, b, live[b]) && In(u, a, n);
    assert u in LiveUnits(live) * Units(a, n);
  }

  /** Headers of live blocks are not touched by a change of a header outside them. */
  lemma LiveHeaders(size: map<nat, nat>, size': map<nat, nat>, live: map<nat, nat>)
    requires LiveOk(size, live) && forall a :: a in live ==> a in size' && size'[a] == size[a]
    ensures LiveOk(size', live)
  {
  }

  /** There is a place for every address above base. */
  lemma {:induction false} PlaceExists(base: nat, ring: seq<Block>, a: nat, k: nat) returns (t: nat)
    requires Ring(base, ring) && a > base && NotIn(ring, a) && k < |ring| && ring[k].addr < a
    ensures t < |ring| && ring[t].addr < a && (t + 1 < |ring| ==> a < ring[t + 1].addr)
    decreases |ring| - k
  {
    t := k;
    if k + 1 < |ring| && ring[k + 1].addr < a { t := PlaceExists(base, ring, a, k + 1); }
  }

  /** A block that overlaps no free block fits at its place. */
  lemma PlaceFits(base: nat, ring: seq<Block>, t: nat, b: Block)
    requires Ring(base, ring) && t < |ring| && ring[t].addr < b.addr && (t + 1 < |ring| ==> b.addr < ring[t + 1].addr)
    requires FreeUnits(ring) !! Units(b.addr, b.size) && b.size > 0
    ensures Fits(ring, t, b)
  {
    if ring[t].addr + ring[t].size > b.addr {
      InFree(ring, t, b.addr);
    }
    if t + 1 < |ring| && b.addr + b.size > ring[t + 1].addr {
      InFree(ring, t + 1, ring[t + 1].addr);
    }
  }

  /** Steps around the ring from i to f. */
  function Distance(i: nat, f: nat, n: nat): (d: nat)
    requires i < n && f < n
  {
    if i <= f then f - i else f + n - i
  }

  class Heap {
    const base: nat
    var freep: nat
    var ptr: map<nat, nat>
    var size: map<nat, nat>
    ghost var ring: seq<Block>
    ghost var live: map<nat, nat>
    ghost var owned: set<nat>
    ghost var top: nat

    ghost predicate Valid()
      reads this
    {
      && base > 0
      && if freep == 0 then ring == [] && live == map[] && owned == {} && base < top <= LIMIT
         else Ring(base, ring) && Linked(ptr, size, ring) && HasAddr(ring, freep)
              && LiveOk(size, live) && Accounted(ring, live, owned, base, top)
    }

    constructor (base: nat, brk: nat)
      requires 0 < base < brk <= LIMIT
      ensures Valid() && freep == 0 && this.base == base && top == brk && live == map[] && owned == {}
    {
      this.base, freep, ptr, size, ring, live, owned, top := base, 0, map[], map[], [], map[], {}, brk;
    }

    /** free's search for the block behind which bp goes. */
    method Search(bp: nat, ghost n: nat) returns (p: nat, ghost t: nat)
      requires Valid() && freep != 0 && base < bp && NotIn(ring, bp) && FreeUnits(ring) !! Units(bp, n) && n > 0
      ensures t < |ring| && ring[t].addr == p && Fits(ring, t, Block(bp, n))
    {
      hide FreeUnits;
      t := PlaceExists(base, ring, bp, 0);
      PlaceFits(base, ring, t, Block(bp, n));
      p := freep;
      ghost var i :| 0 <= i < |ring| && ring[i].addr == freep;
      while true
        invariant 0 <= i < |ring| && ring[i].addr == p
        decreases Distance(i, t, |ring|)
      {
        assert NodeOk(ptr, size, ring, i);
        var next := ptr[p];
        if bp > p && bp < next {
          assert i == t;
          return;
        }
        if p >= next && (bp > p || bp < next) {
          assert i == t;
          return;
        }
        assert i != t;
        p := next;
        i := Succ(ring, i);
      }
    }

    /** The first half of free: the header of bp, which goes behind block t. */
    method SetHeader(bp: nat, p: nat, ghost t: nat, ghost n: nat)
      requires Linked(ptr, size, ring) && t < |ring| && ring[t].addr == p && NotIn(ring, bp) && bp > ring[0].addr
      requires bp in size && size[bp] == n
      modifies this`ptr, this`size
      ensures LinkedBut(ptr, size, PutRight(ring, t, Block(bp, n)), t)
      ensures forall a :: a in old(size) && a != bp ==> a in size && size[a] == old(size)[a]
    {
      hide Linked, LinkedBut;
      HeaderPut(ptr, size, ring, t, Block(bp, n));
      var next := ptr[p];
      if bp + size[bp] == next {
        size := size[bp := size[bp] + size[next]];
        ptr := ptr[bp := ptr[next]];
      } else {
        ptr := ptr[bp := next];
      }
    }

    /** The second half: join block t with bp or let it point to bp. */
    method SetPredecessor(bp: nat, p: nat, ghost t: nat, ghost ring1: seq<Block>)
      requires AlmostRing(base, ring1, t) && ring1[t].addr == p && ring1[t + 1].addr == bp > base &&
                 LinkedBut(ptr, size, ring1, t)
      modifies this`ptr, this`size
      ensures Linked(ptr, size, JoinLeft(ring1, t))
      ensures forall a :: a in old(size) && a != p ==> a in size && size[a] == old(size)[a]
    {
      hide Linked, LinkedBut;
      HeaderJoin(base, ptr, size, ring1, t);
      PutSize(ptr, size, ring1, t);
      if p + size[p] == bp {
        size := size[p := size[p] + size[bp]];
        ptr := ptr[p := ptr[bp]];
      } else {
        ptr := ptr[p := bp];
      }
    }

    /** Free the block whose header is at bp; freep ends up at the block before it. */
    method FreeBlock(bp: nat) returns (ghost t: nat)
      requires Valid() && freep != 0 && bp in live
      modifies this
      ensures Valid() && freep != 0 && live == old(live) - {bp} && owned == old(owned) && top == old(top)
      ensures t < |old(ring)| && t < |ring| && ring == Inserted(old(ring), t, Block(bp, old(live)[bp]))
      ensures ring[t].addr == freep
      ensures ring[t].size >= old(live)[bp] || (t + 1 < |ring| && ring[t + 1].size >= old(live)[bp])
      ensures forall a :: a in live ==> size[a] == old(size)[a]
    {
      hide FreeUnits, Ring, AlmostRing, Linked, LinkedBut, Fits, LiveUnits;
      LiveInside(ring, live, owned, base, top, size, bp);
      ghost var b, ring0, live0 := Block(bp, live[bp]), ring, live;
      var p;
      p, t := Search(bp, live[bp]);
      AboveBase(base, ring, bp);
      SetHeader(bp, p, t, live[bp]);
      PutRightRing(base, ring, t, b);
      ghost var ring1 := PutRight(ring, t, b);
      SetPredecessor(bp, p, t, ring1);
      freep := p;
      JoinLeftRing(base, ring1, t);
      ring := JoinLeft(ring1, t);
      live := live - {bp};
      FreeAccounted(base, ring0, t, b, old(size), size, live0, owned, top);
      assert ring[t].addr == p;
    }

    /** Free a pointer that malloc returned. */
    method Free(ap: nat)
      requires Valid() && ap > 0 && ap - 1 in live
      modifies this
      ensures Valid() && live == old(live) - {ap - 1} && owned == old(owned) && top == old(top)
    {
      ghost var t := FreeBlock(ap - 1);
    }

    /** Ask sbrk for at least nu units; `region` is its answer. */
    method Morecore(nu: nat, region: Option<nat>) returns (p: nat, ghost t: nat)
      requires Valid() && freep != 0 && nu < 0x800_0000
      requires region.Some? ==> region.value >= top && region.value + CoreUnits(nu) <= LIMIT
      modifies this
      ensures Valid() && live == old(live)
      ensures region.None? ==> p == 0 && unchanged(this)
      ensures region.Some? ==>
                && p == freep && freep != 0 && t < |ring| && ring[t].addr == freep
                && owned == old(owned) + Units(region.value, CoreUnits(nu)) && top == region.value + CoreUnits(nu)
                && top - region.value >= 4096 && top - region.value >= nu
                && (top - region.value == 4096 || top - region.value == nu)
                && (ring[t].size >= nu || (t + 1 < |ring| && ring[t + 1].size >= nu))
    {
      hide FreeUnits, LiveUnits, Ring, Linked, LiveOk, Units;
      t := 0;
      if region.None? { return 0, 0; }
      var hp, units := region.value, CoreUnits(nu);
      CoreFresh(ring, live, owned, base, top, size, hp, units);
      NoHeader(base, ring, live, owned, top, ptr, size, hp, units);
      size := size[hp := units];
      live := live[hp := units];
      owned := owned + Units(hp, units);
      top := hp + units;
      t := FreeBlock(hp);
      assert live == old(live);
      p := freep;
    }

    /** The headers after n units were cut off the end of block i, or all of it was unlinked. */
    method Carve(prevp: nat, p: nat, n: nat, ghost j: nat, ghost i: nat) returns (r: nat)
      requires Ring(base, ring) && Linked(ptr, size, ring) && j < |ring| && i == Succ(ring, j) && 0 < i
      requires ring[j].addr == prevp && ring[i].addr == p && 0 < n <= ring[i].size
      modifies this`ptr, this`size
      ensures Linked(ptr, size, Taken(ring, i, n)) && r == ring[i].addr + ring[i].size - n && r in size && size[r] == n
      ensures forall a :: a in old(size) && a != r && a != p ==> a in size && size[a] == old(size)[a]
    {
      hide Ring, Linked, Taken;
      NodeSize(ptr, size, ring, i);
      NodeSize(ptr, size, ring, j);
      HeaderRemoveOrShorten(base, ptr, size, ring, j, i, n);
      r := p;
      if size[p] == n {
        ptr := ptr[prevp := ptr[p]];
      } else {
        var rest := size[p] - n;
        size := size[p := rest];
        r := p + rest;
        size := size[r := n];
      }
    }

    /** Take n units from block i, whose predecessor in the ring is block j. */
    method Take(prevp: nat, p: nat, n: nat, ghost j: nat, ghost i: nat) returns (r: nat)
      requires Valid() && freep != 0 && j < |ring| && i == Succ(ring, j) && ring[j].addr == prevp && ring[i].addr == p
      requires 0 < n <= ring[i].size
      modifies this
      ensures Valid() && freep == prevp && freep != 0 && owned == old(owned) && top == old(top)
      ensures r !in old(live) && live == old(live)[r := n] && ring == Taken(old(ring), i, n)
    {
      hide FreeUnits, LiveUnits, Linked, Ring, Taken, Accounted, LiveOk, HasAddr;
      NotFirst(base, ring, i, n);
      ghost var size0 := size;
      r := Carve(prevp, p, n, j, i);
      freep := prevp;
      TakenRing(base, ring, i, n);
      StillHas(base, ring, j, i, n);
      TakeAccounted(base, ring, i, n, size0, size, live, owned, top);
      NotNull(base, ring, j);
      ring := Taken(ring, i, n);
      live := live[r := n];
    }

    /** malloc's first call: the ring of the empty block alone. */
    method Start()
      requires Valid() && freep == 0
      modifies this
      ensures Valid() && freep == base && ring == [Block(base, 0)] && live == map[] && owned == {} && top == old(top)
    {
      ptr := ptr[base := base];
      size := size[base := 0];
      freep := base;
      ring := [Block(base, 0)];
      assert ring[0].addr == freep;
      assert NodeOk(ptr, size, ring, 0);
      FreeUnitsLast([], Block(base, 0));
      assert [] + [Block(base, 0)] == ring;
    }

    /** Allocate nbytes bytes; 0 when no free block is large enough and sbrk fails.  `region` is
        sbrk's answer if it is called, and `calls` says how often it was. */
    method Malloc(nbytes: nat, region: Option<nat>) returns (r: nat, ghost calls: nat)
      requires Valid() && UnitsFor(nbytes) < 0x800_0000
      requires region.Some? ==> region.value >= top && region.value + CoreUnits(UnitsFor(nbytes)) <= LIMIT
      modifies this
      ensures Valid() && freep != 0
      ensures calls == if NoFit(old(ring), UnitsFor(nbytes)) then 1 else 0
      ensures r == 0 <==> calls == 1 && region.None?
      ensures r == 0 ==> live == old(live)
      ensures r != 0 ==> r - 1 !in old(live) && live == old(live)[r - 1 := UnitsFor(nbytes)]
      ensures r != 0 ==> nbytes <= 16 * (live[r - 1] - 1) < nbytes + 16
      ensures if calls == 1 && region.Some?
              then owned == old(owned) + Units(region.value, CoreUnits(UnitsFor(nbytes))) &&
                  top == region.value + CoreUnits(UnitsFor(nbytes))
              else owned == old(owned) && top == old(top)
    {
      hide FreeUnits, LiveUnits, Linked, Accounted, LiveOk, Ring, NoFit, AllPassed, Distance, Units, CoreUnits,
           UnitsFor;
      var nunits := UnitsFor(nbytes);
      if freep == 0 {
        Start();
        NothingFits(base, nunits);
      }
      ghost var ring0 := ring;
      ghost var f :| 0 <= f < |ring| && ring[f].addr == freep;
      var prevp := freep;
      NodeSize(ptr, size, ring, f);
      var p := ptr[prevp];
      ghost var j, i := f, Succ(ring, f);
      PassNone(ring, f, nunits);
      calls := 0;
      while true
        invariant Valid() && freep != 0 && live == old(live)
        invariant 0 <= f < |ring| && ring[f].addr == freep
        invariant 0 <= j < |ring| && ring[j].addr == prevp && i == Succ(ring, j) && ring[i].addr == p
        invariant calls == 0 ==> ring == ring0 && owned == old(owned) && top == old(top)
        invariant calls == 0 ==> AllPassed(ring, i, f, nunits)
        invariant calls == 1 ==> region.Some? && NoFit(ring0, nunits)
        invariant calls == 1 ==> ring[f].size >= nunits || (i == Succ(ring, f) && ring[i].size >= nunits)
        invariant calls == 1 ==>
                    && owned == old(owned) + Units(region.value, CoreUnits(nunits))
                    && top == region.value + CoreUnits(nunits)
        invariant 0 <= calls <= 1
        decreases 1 - calls, Distance(i, f, |ring|)
      {
        NodeSize(ptr, size, ring, i);
        if size[p] >= nunits {
          if calls == 0 { SomeFits(ring0, i, nunits); }
          var q := Take(prevp, p, nunits, j, i);
          return q + 1, calls;
        }
        if p == freep {
          SameBlock(base, ring, i, f);
          assert calls == 0;
          PassAll(ring, f, nunits);
          calls := 1;
          p, f := Morecore(nunits, region);
          if p == 0 { return 0, 1; }
          i := f;
        } else {
          PassOne(ring, i, f, nunits);
        }
        NodeSize(ptr, size, ring, i);
        prevp := p;
        p := ptr[p];
        j, i := i, Succ(ring, i);
      }
    }
  }

  lemma AboveBase(base: nat, ring: seq<Block>, a: nat)
    requires Ring(base, ring)
    ensures |ring| > 0 && ring[0].addr == base && base > 0
  {
  }

  lemma PutSize(ptr: map<nat, nat>, size: map<nat, nat>, ring: seq<Block>, t: nat)
    requires LinkedBut(ptr, size, ring, t) && t + 1 < |ring|
    ensures ring[t].addr in size && size[ring[t].addr] == ring[t].size
    ensures ring[t + 1].addr in size && size[ring[t + 1].addr] == ring[t + 1].size
  {
    assert NodeOk(ptr, size, ring, t + 1);
  }

  /** free moves the units of one block from the live to the free ones. */
  lemma FreeAccounted(base: nat, ring: seq<Block>, t: nat, b: Block, size: map<nat, nat>, size': map<nat, nat>,
                      live: map<nat, nat>, owned: set<nat>, top: nat)
    requires Ring(base, ring) && Fits(ring, t, b) && b.addr in live && live[b.addr] == b.size && b.addr > base
    requires LiveOk(size, live) && Accounted(ring, live, owned, base, top)
    requires forall a :: a in size && a != b.addr && a != ring[t].addr ==> a in size' && size'[a] == size[a]
    ensures LiveOk(size', live - {b.addr}) && Accounted(Inserted(ring, t, b), live - {b.addr}, owned, base, top)
    ensures forall a :: a in live - {b.addr} ==> size'[a] == size[a]
  {
    hide FreeUnits, LiveUnits;
    LiveMinus(size, live, b.addr);
    LiveInside(ring, live, owned, base, top, size, b.addr);
    PutRightUnits(ring, t, b);
    PutRightRing(base, ring, t, b);
    JoinLeftUnits(PutRight(ring, t, b), t);
    forall a | a in live && a != b.addr ensures a != ring[t].addr { LiveInside(ring, live, owned, base, top, size, a); }
    LiveHeaders(size, size', live - {b.addr});
  }

  /** morecore never asks for less than 4096 units. */
  function CoreUnits(nu: nat): (n: nat)
    ensures n >= 4096 && n >= nu && (n == 4096 || n == nu)
  {
    if nu < 4096 then 4096 else nu
  }

  /** A region above everything obtained so far is in no block. */
  lemma CoreFresh(ring: seq<Block>, live: map<nat, nat>, owned: set<nat>, base: nat, top: nat, size: map<nat, nat>,
                  hp: nat, n: nat)
    requires Accounted(ring, live, owned, base, top) && LiveOk(size, live) && hp >= top && hp + n <= LIMIT && n > 0
    ensures LiveOk(size[hp := n], live[hp := n]) && hp !in live
    ensures Accounted(ring, live[hp := n], owned + Units(hp, n), base, hp + n)
  {
    hide FreeUnits, LiveUnits;
    forall a | a in live ensures a != hp { LiveOwned(ring, live, owned, base, top, size, a); }
    LiveHeaders(size, size[hp := n], live);
    forall u | u in Units(hp, n) ensures u !in owned { }
    LivePlus(size[hp := n], live, hp, n);
  }

  lemma LiveOwned(ring: seq<Block>, live: map<nat, nat>, owned: set<nat>, base: nat, top: nat, size: map<nat, nat>,
                  a: nat)
    requires Accounted(ring, live, owned, base, top) && LiveOk(size, live) && a in live
    ensures base < a < top
  {
    assert In(a, a, live[a]);
    assert a in LiveUnits(live);
  }

  lemma NoHeader(base: nat, ring: seq<Block>, live: map<nat, nat>, owned: set<nat>, top: nat,
                 ptr: map<nat, nat>, size: map<nat, nat>, hp: nat, n: nat)
    requires Ring(base, ring) && Linked(ptr, size, ring) && Accounted(ring, live, owned, base, top) && hp >= top
    ensures Linked(ptr, size[hp := n], ring)
  {
    var size' := size[hp := n];
    forall i: nat | i < |ring| ensures NodeOk(ptr, size', ring, i) {
      assert NodeOk(ptr, size, ring, i);
      if i > 0 { InFree(ring, i, ring[i].addr); }
    }
  }

  lemma NodeSize(ptr: map<nat, nat>, size: map<nat, nat>, ring: seq<Block>, i: nat)
    requires Linked(ptr, size, ring) && i < |ring|
    ensures ring[i].addr in size && ring[i].addr in ptr && size[ring[i].addr] == ring[i].size
    ensures ptr[ring[i].addr] == ring[Succ(ring, i)].addr
  {
    assert NodeOk(ptr, size, ring, i);
  }

  lemma HeaderRemoveOrShorten(base: nat, ptr: map<nat, nat>, size: map<nat, nat>, ring: seq<Block>, j: nat, i: nat,
                              n: nat)
    requires Ring(base, ring) && Linked(ptr, size, ring) && j < |ring| && i == Succ(ring, j) && 0 < i &&
               0 < n <= ring[i].size
    ensures ring[i].addr in ptr
    ensures ring[i].size == n ==> Linked(ptr[ring[j].addr := ptr[ring[i].addr]], size, Taken(ring, i, n))
    ensures ring[i].size > n ==>
              Linked(ptr, size[ring[i].addr := ring[i].size - n][ring[i].addr + ring[i].size - n := n],
                  Taken(ring, i, n))
  {
    hide Ring, Linked;
    HeaderRemove(base, ptr, size, ring, j, i);
    if ring[i].size > n { HeaderShorten(base, ptr, size, ring, i, n); }
  }

  lemma StillHas(base: nat, ring: seq<Block>, j: nat, i: nat, n: nat)
    requires Ring(base, ring) && j < |ring| && i == Succ(ring, j) && 0 < i && 0 < n <= ring[i].size
    ensures HasAddr(Taken(ring, i, n), ring[j].addr)
  {
    assert j < i;
    assert Taken(ring, i, n)[j].addr == ring[j].addr;
  }

  /** malloc moves n units from the free to the live ones. */
  lemma TakeAccounted(base: nat, ring: seq<Block>, i: nat, n: nat, size: map<nat, nat>, size': map<nat, nat>,
                      live: map<nat, nat>, owned: set<nat>, top: nat)
    requires Ring(base, ring) && 0 < i < |ring| && 0 < n <= ring[i].size
    requires LiveOk(size, live) && Accounted(ring, live, owned, base, top)
    requires var r := ring[i].addr + ring[i].size - n;
             && r in size' && size'[r] == n
             && forall a :: a in size && a != r && a != ring[i].addr ==> a in size' && size'[a] == size[a]
    ensures var r := ring[i].addr + ring[i].size - n;
            && r !in live && LiveOk(size', live[r := n]) && Accounted(Taken(ring, i, n), live[r := n], owned, base, top)
  {
    hide FreeUnits, LiveUnits;
    var r := ring[i].addr + ring[i].size - n;
    TakenUnits(ring, i, n);
    TakenApart(base, ring, i, n);
    InFree(ring, i, ring[i].addr);
    InFree(ring, i, r);
    forall a | a in live ensures a != ring[i].addr && a != r {
      LiveInside(ring, live, owned, base, top, size, a);
      LiveStart(live, a);
    }
    LiveHeaders(size, size', live);
    LivePlus(size', live, r, n);
  }

  lemma LiveStart(live: map<nat, nat>, a: nat)
    requires a in live && live[a] > 0
    ensures a in LiveUnits(live)
  {
    assert In(a, a, live[a]);
  }

  /** nunits: the bytes rounded up to units, and one for the header. */
  function UnitsFor(nbytes: nat): (n: nat)
    ensures n >= 1 && 16 * (n - 1) >= nbytes && 16 * (n - 1) < nbytes + 16
  {
    (nbytes + 15) / 16 + 1
  }

  /** Going around from behind f, the blocks looked at before block i are too small. */
  ghost predicate AllPassed(ring: seq<Block>, i: nat, f: nat, n: nat)
    requires i < |ring| && f < |ring|
  {
    forall k: nat :: k < |ring| && Distance(k, f, |ring|) > Distance(i, f, |ring|) ==> ring[k].size < n
  }

  /** No free block has n units. */
  ghost predicate NoFit(ring: seq<Block>, n: nat)
  {
    forall k :: 0 <= k < |ring| ==> ring[k].size < n
  }

  lemma PassNone(ring: seq<Block>, f: nat, n: nat)
    requires f < |ring|
    ensures AllPassed(ring, Succ(ring, f), f, n)
  {
  }

  lemma PassOne(ring: seq<Block>, i: nat, f: nat, n: nat)
    requires i < |ring| && f < |ring| && ring[i].size < n && (i != f)
    ensures AllPassed(ring, i, f, n) ==> AllPassed(ring, Succ(ring, i), f, n)
    ensures Distance(Succ(ring, i), f, |ring|) < Distance(i, f, |ring|)
  {
  }

  lemma PassAll(ring: seq<Block>, f: nat, n: nat)
    requires f < |ring| && AllPassed(ring, f, f, n) && ring[f].size < n
    ensures NoFit(ring, n)
  {
  }

  lemma SomeFits(ring: seq<Block>, i: nat, n: nat)
    requires i < |ring| && ring[i].size >= n
    ensures !NoFit(ring, n)
  {
  }

  lemma NothingFits(base: nat, n: nat)
    requires n > 0
    ensures NoFit([], n) && NoFit([Block(base, 0)], n)
  {
  }

  lemma NotFirst(base: nat, ring: seq<Block>, i: nat, n: nat)
    requires Ring(base, ring) && i < |ring| && 0 < n <= ring[i].size
    ensures i > 0
  {
  }

  lemma NotNull(base: nat, ring: seq<Block>, j: nat)
    requires Ring(base, ring) && j < |ring|
    ensures ring[j].addr > 0
  {
  }

  lemma SameBlock(base: nat, ring: seq<Block>, i: nat, j: nat)
    requires Ring(base, ring) && i < |ring| && j < |ring| && ring[i].addr == ring[j].addr
    ensures i == j
  {
  }
}
