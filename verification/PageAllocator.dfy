/** The physical page allocator of kernel/kalloc.c.

    RAM is the pages lo..hi, each PGSIZE bytes.  A free page holds in its first
    eight bytes the address of the next free page; the list ends with 0.
 */
module PageAllocator {
  import opened Words
  import opened Counting

  const PGSIZE: nat := 4096
  const PHYSTOP_PAGE: nat := 0x88000  // PHYSTOP / PGSIZE

  type Page = p: seq<byte> | |p| == 4096 witness seq(4096, _ => 0)

  type Ram = map<nat, Page>

  /** The address of the first page of a list; 0 for the empty list. */
  function HeadOf(free: seq<nat>): (a: nat)
  {
    if free == [] then 0 else PGSIZE * free[0]
  }

  ghost predicate LinkOk(mem: Ram, free: seq<nat>, k: nat)
  {
    k < |free| ==> free[k] in mem && free[k] > 0 && Quad(mem[free[k]], 0) == HeadOf(free[k + 1..])
  }

  /** The pages in `free` are distinct and chained in this order. */
  ghost predicate Chained(mem: Ram, free: seq<nat>)
  {
    Distinct(free) && forall k: nat :: k < |free| ==> LinkOk(mem, free, k)
  }

  /** Pages lo..hi exist. */
  ghost predicate IsRam(mem: Ram, lo: nat, hi: nat)
  {
    0 < lo <= hi <= PHYSTOP_PAGE && forall p: nat :: p in mem <==> lo <= p < hi
  }

  function Filled(b: byte): (p: Page)
    ensures forall i: nat :: i < PGSIZE ==> p[i] == b
  {
    seq(PGSIZE, _ => b)
  }

  /** Changing pages that are not on the list does not disturb the list. */
  lemma ChainFrame(mem: Ram, mem': Ram, free: seq<nat>)
    requires Chained(mem, free)
    requires forall p :: p in free ==> p in mem && p in mem' && mem'[p] == mem[p]
    ensures Chained(mem', free)
  {
    forall k: nat | k < |free| ensures LinkOk(mem', free, k) {
      assert LinkOk(mem, free, k);
      assert free[k] in free;
    }
  }

  lemma ChainPage(mem: Ram, free: seq<nat>, p: nat)
    requires Chained(mem, free) && p in free
    ensures p in mem && p > 0
  {
    var k :| 0 <= k < |free| && free[k] == p;
    assert LinkOk(mem, free, k);
  }

  lemma ChainPop(mem: Ram, free: seq<nat>)
    requires Chained(mem, free) && free != []
    ensures Chained(mem, free[1..]) && free[0] in mem && Quad(mem[free[0]], 0) == HeadOf(free[1..])
    ensures free[0] !in free[1..] && free[0] > 0
  {
    assert LinkOk(mem, free, 0);
    forall k: nat | k < |free[1..]| ensures LinkOk(mem, free[1..], k) {
      assert LinkOk(mem, free, k + 1);
      assert free[1..][k + 1..] == free[k + 2..];
    }
  }

  lemma ChainPush(mem: Ram, free: seq<nat>, p: nat)
    requires Chained(mem, free) && p !in free && p in mem && p > 0 && Quad(mem[p], 0) == HeadOf(free)
    ensures Chained(mem, [p] + free)
  {
    var free' := [p] + free;
    forall k: nat | k < |free'| ensures LinkOk(mem, free', k) {
      if k == 0 {
        assert free'[1..] == free;
      } else {
        assert LinkOk(mem, free, k - 1);
        assert free'[k + 1..] == free[k..];
      }
    }
  }

  class Kmem {
    const lo: nat
    const hi: nat
    var mem: Ram
    var freelist: nat
    ghost var free: seq<nat>

    ghost predicate Valid()
      reads this
      ensures Valid() ==> 0 < lo <= hi <= PHYSTOP_PAGE && (forall p :: p in free ==> p in mem)
      ensures Valid() ==> forall p: nat :: p in mem <==> lo <= p < hi
    {
      IsRam(mem, lo, hi) && Chained(mem, free) && freelist == HeadOf(free) && InRam(mem, free)
    }

    static ghost predicate InRam(mem: Ram, free: seq<nat>)
    {
      forall p :: p in free ==> p in mem
    }

    /** kinit: all of RAM is free. */
    constructor (lo: nat, hi: nat, image: Ram)
      requires 0 < lo <= hi <= PHYSTOP_PAGE && IsRam(image, lo, hi)
      ensures Valid() && this.lo == lo && this.hi == hi
      ensures Elems(free) == mem.Keys
    {
      this.lo, this.hi, mem, freelist, free := lo, hi, image, 0, [];
      new;
      Freerange(PGSIZE * (lo - 1) + 1, PGSIZE * hi);
    }

    /** Free the whole pages between two addresses. */
    method Freerange(start: nat, end: nat)
      requires Valid() && PGSIZE * (lo - 1) < start && end <= PGSIZE * hi
      requires forall p: nat :: PageUp(start) <= p && PGSIZE * (p + 1) <= end ==> p !in free
      modifies this
      ensures Valid()
      ensures forall p :: p in free <==> p in old(free) || (PageUp(start) <= p && PGSIZE * (p + 1) <= end)
    {
      var p := PageUp(start);
      while PGSIZE * p + PGSIZE <= end
        invariant PageUp(start) <= p
        invariant Valid()
        invariant forall q :: q in free <==> q in old(free) || (PageUp(start) <= q < p && PGSIZE * (q + 1) <= end)
        decreases end - PGSIZE * p
      {
        Kfree(p);
        p := p + 1;
      }
    }

    /** Fill the page with ones and push it on the list. */
    method Kfree(p: nat)
      requires Valid() && p in mem && p !in free
      modifies this
      ensures Valid() && free == [p] + old(free) && p in mem && mem == old(mem)[p := mem[p]]
      ensures forall i :: 8 <= i < PGSIZE ==> mem[p][i] == 1
    {
      hide Word, Quad, Chained, Filled;
      assert free == [] || free[0] in free;
      var page: Page := SetQuad(Filled(1), 0, freelist);
      SetQuadBytes(Filled(1), 0, freelist);
      ghost var mem1 := mem[p := page];
      ChainFrame(mem, mem1, free);
      ChainPush(mem1, free, p);
      mem := mem[p := page];
      freelist := PGSIZE * p;
      free := [p] + free;
    }

    /** Pop the first free page and fill it with fives; 0 when there is none. */
    method Kalloc() returns (r: nat)
      requires Valid()
      modifies this
      ensures Valid()
      ensures old(free) == [] ==> r == 0 && unchanged(this)
      ensures old(free) != [] ==>
                && r == old(free)[0] && r in old(mem) && free == old(free)[1..] && r !in free
                && mem == old(mem)[r := Filled(5)]
    {
      hide Word, Quad, Chained, Filled;
      if freelist == 0 {
        if free != [] { ChainPop(mem, free); }
        return 0;
      }
      ChainPop(mem, free);
      r := freelist / PGSIZE;
      freelist := Quad(mem[r], 0);
      ChainFrame(mem, mem[r := Filled(5)], free[1..]);
      free := free[1..];
      mem := mem[r := Filled(5)];
    }
  }

  /** PGROUNDUP(a) / PGSIZE */
  function PageUp(a: nat): (p: nat)
    ensures PGSIZE * p - PGSIZE < a <= PGSIZE * p
  {
    (a + PGSIZE - 1) / PGSIZE
  }
}
