/** The page-table operations of kernel/vm.c. */
module VirtualMemory {
  import opened Words
  import opened Counting
  import opened PageAllocator
  import opened PageTable

  /** The pages that an address space may draw on: the free ones and its tables. */
  ghost function Pool(free: seq<nat>, t: Tables): (s: set<nat>)
  {
    Elems(free) + Pages(t)
  }

  ghost predicate Apart(free: seq<nat>, t: Tables)
  {
    forall p :: p in free ==> p !in Pages(t)
  }

  ghost predicate Ready(k: Kmem, t: Tables)
    reads k
    ensures Ready(k, t) ==> k.Valid() && TablesOk(k.mem, t)
  {
    k.Valid() && TablesOk(k.mem, t) && Apart(k.free, t)
  }

  lemma GrownPool(free: seq<nat>, t: Tables, c: Place)
    requires free != [] && c !in t && Apart(free, t) && Distinct(free)
    ensures Pool(free[1..], t[c := free[0]]) == Pool(free, t)
    ensures Apart(free[1..], t[c := free[0]])
  {
    var t' := t[c := free[0]];
    assert free[0] in free;
    forall p | p in free[1..] ensures p !in Pages(t') { assert p in free; }
    forall p ensures p in Pool(free[1..], t') <==> p in Pool(free, t) {
      assert p in free <==> p == free[0] || p in free[1..];
      if p in Pages(t) { var pl :| pl in t && t[pl] == p; assert t'[pl] == p; }
      if p == free[0] { assert t'[c] == p; }
    }
  }

  lemma NoChange(mem: Ram, t: Tables, s: set<nat>)
    ensures Touched(mem, mem, s) && SameLeaves(mem, t, mem, t)
  {
  }

  lemma UpperEntry(mem: Ram, t: Tables, pl: Place, i: nat)
    requires TablesOk(mem, t) && pl in t && pl.level > 0 && i < 512
    ensures PteV(Quad(mem[t[pl]], i)) <==> Child(pl, i) in t
    ensures Child(pl, i) in t ==> PtePage(Quad(mem[t[pl]], i)) == t[Child(pl, i)]
  {
    hide Quad, MkPte, PteV, PtePage;
    assert EntryOk(mem, t, pl, i);
    TablePte(if Child(pl, i) in t then t[Child(pl, i)] else 0);
  }

  /** Allocate a zeroed table and enter it in entry i of the table at pl. */
  method NewTable(k: Kmem, table: nat, i: nat, ghost t: Tables, ghost pl: Place) returns (next: nat, ghost t': Tables)
    requires Ready(k, t) && pl in t && pl.level > 0 && t[pl] == table && i < 512 && Child(pl, i) !in t &&
               InTree(Child(pl, i))
    modifies k
    ensures Ready(k, t') && Pool(k.free, t') == Pool(old(k.free), t) && Touched(old(k.mem), k.mem, Pool(k.free, t'))
    ensures SameLeaves(old(k.mem), t, k.mem, t')
    ensures next == 0 ==> t' == t && k.free == [] && unchanged(k)
    ensures next != 0 ==> t' == t[Child(pl, i) := next] && |k.free| + 1 == |old(k.free)|
  {
    hide Quad, SetQuad, TablesOk, Touched, SameLeaves, Pool, Apart, Chained, MkPte, Child, Grown, InTree;
    t' := t;
    NoChange(k.mem, t, Pool(k.free, t));
    ghost var m0, f0 := k.mem, k.free;
    next := k.Kalloc();
    if next == 0 { return; }
    t' := t[Child(pl, i) := next];
    FirstFree(m0, f0, t, pl);
    GrowTree(m0, f0, t, pl, i);
    GrownIs(m0, t, pl, i, next, Filled(5));
    k.mem := k.mem[next := Zeroes(PGSIZE)];
    k.mem := k.mem[table := SetQuad(k.mem[table], i, MkPte(next, 1))];
  }

  /** The new table cleared and entered, whatever kalloc left in it. */
  lemma GrownIs(mem: Ram, t: Tables, pl: Place, i: nat, p: nat, junk: Page)
    requires pl in t && t[pl] in mem && i < 512 && p < PHYSTOP_PAGE && p != t[pl]
    ensures var m := mem[p := junk][p := Zeroes(PGSIZE)];
            m[t[pl] := SetQuad(m[t[pl]], i, MkPte(p, 1))] == Grown(mem, t, pl, i, p)
  {
  }

  /** One level of walk: the table that entry i of the table at pl leads to, 0 if there is none. */
  method Descend(k: Kmem, table: nat, i: nat, alloc: bool, ghost t: Tables, ghost pl: Place)
    returns (next: nat, ghost t': Tables)
    requires Ready(k, t) && pl in t && pl.level > 0 && t[pl] == table && i < 512 && InTree(Child(pl, i))
    modifies k
    ensures Ready(k, t') && Pool(k.free, t') == Pool(old(k.free), t) && Touched(old(k.mem), k.mem, Pool(k.free, t'))
    ensures SameLeaves(old(k.mem), t, k.mem, t')
    ensures next == 0 ==> Child(pl, i) !in t && (alloc ==> k.free == [])
    ensures next != 0 ==> t' == t[Child(pl, i) := next] && |k.free| + 1 >= |old(k.free)|
    ensures next == 0 || !alloc || Child(pl, i) in t ==> t' == t && unchanged(k)
  {
    hide Quad, TablesOk, Touched, SameLeaves, Pool, Apart, PteV, PtePage, MkPte, Child;
    NoChange(k.mem, t, Pool(k.free, t));
    UpperEntry(k.mem, t, pl, i);
    var pte := Quad(k.mem[table], i);
    if PteV(pte) {
      assert t == t[Child(pl, i) := t[Child(pl, i)]];
      return PtePage(pte), t;
    }
    if !alloc { return 0, t; }
    next, t' := NewTable(k, table, i, t, pl);
  }

  /** Going down twice. */
  lemma Twice(m0: Ram, t0: Tables, m1: Ram, t1: Tables, m2: Ram, t2: Tables, s: set<nat>)
    requires SameLeaves(m0, t0, m1, t1) && SameLeaves(m1, t1, m2, t2) && Touched(m0, m1, s) && Touched(m1, m2, s)
    ensures SameLeaves(m0, t0, m2, t2) && Touched(m0, m2, s)
  {
  }

  lemma NoLeafTable(mem: Ram, t: Tables, v: nat)
    requires TablesOk(mem, t) && v < MAXVPN && (Place(1, v / 512 / 512) !in t || Place(0, v / 512) !in t)
    ensures Place(0, v / 512) !in t && LeafPte(mem, t, v) == 0
  {
    assert Place(0, v / 512) in t ==> PlaceOk(t, Place(0, v / 512));
  }

  /** The bottom table whose entry PX(0, va) is the entry of va; 0 if it is not there and
      cannot be made. */
  method Walk(k: Kmem, pagetable: nat, va: nat, alloc: bool, ghost t: Tables) returns (table: nat, ghost t': Tables)
    requires Ready(k, t) && t[ROOT] == pagetable && va < MAXVA
    modifies k
    ensures Ready(k, t') && Pool(k.free, t') == Pool(old(k.free), t) && Touched(old(k.mem), k.mem, Pool(k.free, t'))
    ensures SameLeaves(old(k.mem), t, k.mem, t') && t'[ROOT] == pagetable
    ensures table != 0 ==> Place(0, va / PGSIZE / 512) in t' && t'[Place(0, va / PGSIZE / 512)] == table
    ensures table == 0 ==> LeafPte(k.mem, t', va / PGSIZE) == 0 && (alloc ==> k.free == [] && |old(k.free)| <= 1)
    ensures |k.free| + 2 >= |old(k.free)|
    ensures !alloc || Place(0, va / PGSIZE / 512) in t ==> t' == t && unchanged(k)
    ensures Place(0, va / PGSIZE / 512) in t ==> table != 0
  {
    hide TablesOk, Touched, SameLeaves, Pool, Apart, LeafPte, Child, Px;
    IndicesSplit(va);
    ghost var v := va / PGSIZE;
    if Place(1, v / 512 / 512) !in t || Place(0, v / 512) !in t { NoLeafTable(k.mem, t, v); }
    var middle, t1 := Descend(k, pagetable, Px(2, va), alloc, t, ROOT);
    if middle == 0 { return 0, t1; }
    ghost var m1 := k.mem;
    table, t' := Descend(k, middle, Px(1, va), alloc, t1, Place(1, v / 512 / 512));
    Twice(old(k.mem), t, m1, t1, k.mem, t', Pool(k.free, t'));
    if table == 0 { NoLeafTable(k.mem, t', v); }
  }

  lemma FirstFree(mem: Ram, free: seq<nat>, t: Tables, pl: Place)
    requires Apart(free, t) && free != [] && pl in t
    ensures free[0] in free && free[0] != t[pl]
  {
    assert free[0] in free && t[pl] in Pages(t);
  }

  /** Taking the first free page for a new table. */
  lemma GrowTree(mem: Ram, free: seq<nat>, t: Tables, pl: Place, i: nat)
    requires TablesOk(mem, t) && Apart(free, t) && Chained(mem, free) && free != [] && free[0] < PHYSTOP_PAGE
    requires pl in t && pl.level > 0 && i < 512 && Child(pl, i) !in t && InTree(Child(pl, i))
    ensures var p := free[0];
            var mem', t' := Grown(mem, t, pl, i, p), t[Child(pl, i) := p];
            && TablesOk(mem', t') && SameLeaves(mem, t, mem', t') && Apart(free[1..], t')
            && Pool(free[1..], t') == Pool(free, t) && Touched(mem, mem', Pool(free, t))
            && Chained(mem', free[1..])
  {
    hide Quad, TablesOk, SameLeaves, LinkOk;
    ChainPop(mem, free);
    GrownOk(mem, t, pl, i, free[0]);
    GrownPool(free, t, Child(pl, i));
    assert free[0] in free;
    forall q | q in free[1..] ensures q in mem && Grown(mem, t, pl, i, free[0])[q] == mem[q] {
      ChainPage(mem, free[1..], q);
      assert q in free;
    }
    ChainFrame(mem, Grown(mem, t, pl, i, free[0]), free[1..]);
  }

  // ---- Single entries ---------------------------------------------------

  lemma StoreReady(mem: Ram, free: seq<nat>, t: Tables, v: nat, e: uint64)
    requires TablesOk(mem, t) && Apart(free, t) && Chained(mem, free) && v < MAXVPN && Place(0, v / 512) in t
    ensures Chained(Stored(mem, t, v, e), free) && Touched(mem, Stored(mem, t, v, e), Pages(t))
  {
    hide TablesOk, Quad;
    forall p | p in free ensures p in mem && Stored(mem, t, v, e)[p] == mem[p] { ChainPage(mem, free, p); }
    ChainFrame(mem, Stored(mem, t, v, e), free);
  }

  /** Store e as the entry of the page of va. */
  method Store(k: Kmem, table: nat, va: nat, e: uint64, ghost t: Tables)
    requires Ready(k, t) && va < MAXVA && Place(0, va / PGSIZE / 512) in t && t[Place(0, va / PGSIZE / 512)] == table
    requires e == 0 || PteV(e)
    modifies k
    ensures Ready(k, t) && k.free == old(k.free) && Touched(old(k.mem), k.mem, Pages(t))
    ensures LeafSet(old(k.mem), t, k.mem, t, va / PGSIZE, e)
  {
    hide TablesOk, Quad, Chained, LeafPte, Touched, Px, PteV;
    IndicesSplit(va);
    ghost var v := va / PGSIZE;
    StoreReady(k.mem, k.free, t, v, e);
    StoredOk(k.mem, t, v, e);
    k.mem := k.mem[table := SetQuad(k.mem[table], Px(0, va), e)];
  }

  /** Entry v is e; the others are as they were. */
  ghost predicate LeafSet(m0: Ram, t0: Tables, m1: Ram, t1: Tables, v: nat, e: nat)
  {
    forall w: nat :: w < MAXVPN ==> LeafPte(m1, t1, w) == if w == v then e else LeafPte(m0, t0, w)
  }

  /** The entry of va, 0 if there is no table for it. */
  method Load(k: Kmem, pagetable: nat, va: nat, ghost t: Tables) returns (table: nat, pte: nat)
    requires Ready(k, t) && t[ROOT] == pagetable && va < MAXVA
    modifies k
    ensures unchanged(k) && pte == LeafPte(k.mem, t, va / PGSIZE)
    ensures table != 0 ==> Place(0, va / PGSIZE / 512) in t && t[Place(0, va / PGSIZE / 512)] == table
    ensures table == 0 ==> pte == 0
    ensures pte == 0 || PteV(pte)
  {
    hide TablesOk, Quad, Touched, Px, PteV;
    IndicesSplit(va);
    ghost var t1;
    table, t1 := Walk(k, pagetable, va, false, t);
    if table == 0 { return table, 0; }
    pte := Quad(k.mem[table], Px(0, va));
    LeafEntry(k.mem, t, va / PGSIZE);
  }

  lemma LeafEntry(mem: Ram, t: Tables, v: nat)
    requires TablesOk(mem, t)
    ensures var pte := LeafPte(mem, t, v); pte == 0 || PteV(pte)
  {
    hide Quad;
    var pl := Place(0, v / 512);
    if pl in t { assert EntryOk(mem, t, pl, v % 512); }
  }

  /** The page that user code reaches at va; 0 if it reaches none. */
  method Walkaddr(k: Kmem, pagetable: nat, va: nat, ghost t: Tables) returns (page: nat)
    requires Ready(k, t) && t[ROOT] == pagetable
    modifies k
    ensures unchanged(k)
    ensures page == UserPage(k.mem, t, va)
  {
    hide TablesOk, LeafPte;
    if va >= MAXVA { return 0; }
    var table, pte := Load(k, pagetable, va, t);
    if table == 0 { return 0; }
    if !PteV(pte) { return 0; }
    if !PteU(pte) { return 0; }
    page := PtePage(pte);
  }

  /** The page behind a virtual address that user code may use; 0 for all other addresses. */
  function UserPage(mem: Ram, t: Tables, va: nat): (page: nat)
  {
    if va >= MAXVA then 0
    else
      var e := LeafPte(mem, t, va / PGSIZE);
      if PteV(e) && PteU(e) then PtePage(e) else 0
  }

  predicate UserMapped(mem: Ram, t: Tables, va: nat)
  {
    UserPage(mem, t, va) != 0
  }

  /** The byte that user code reads at va. */
  function UserByte(mem: Ram, t: Tables, va: nat): (b: byte)
  {
    var p := UserPage(mem, t, va);
    if p in mem then mem[p][va % PGSIZE] else 0
  }

  // ---- Ranges of pages --------------------------------------------------

  /** n pages from first on are mapped to the pages from p on; the other entries are as they were. */
  ghost predicate MappedRange(m0: Ram, t0: Tables, m1: Ram, t1: Tables, first: nat, n: nat, p: nat, flags: nat)
  {
    forall v: nat :: v < MAXVPN ==>
      LeafPte(m1, t1, v) == if first <= v < first + n then MkPte(p + v - first, flags) else LeafPte(m0, t0, v)
  }

  /** walk with allocation, then the store of one entry. */
  method MapPage(k: Kmem, pagetable: nat, va: nat, p: nat, perm: nat, ghost t: Tables)
    returns (ok: bool, ghost t': Tables)
    requires Ready(k, t) && t[ROOT] == pagetable && va < MAXVA && LeafPte(k.mem, t, va / PGSIZE) == 0
    requires perm < 1024 && p < 0x10_0000_0000_0000
    modifies k
    ensures Ready(k, t') && t'[ROOT] == pagetable
    ensures Pool(k.free, t') == Pool(old(k.free), t) && Touched(old(k.mem), k.mem, Pool(k.free, t'))
    ensures !ok ==> k.free == [] && |old(k.free)| <= 1 && SameLeaves(old(k.mem), t, k.mem, t')
    ensures ok ==> |k.free| + 2 >= |old(k.free)|
    ensures ok ==> LeafSet(old(k.mem), t, k.mem, t', va / PGSIZE, MkPte(p, WithV(perm)))
  {
    hide TablesOk, LeafPte, Touched, Pool, SameLeaves, LeafSet, Apart, PteV, MkPte, WithV;
    var table;
    table, t' := Walk(k, pagetable, va, true, t);
    if table == 0 { return false, t'; }
    ghost var m1 := k.mem;
    LeafFlags(p, perm);
    Store(k, table, va, MkPte(p, WithV(perm)), t');
    AfterWalk(old(k.mem), t, m1, t', k.mem, Pages(t'), Pool(k.free, t'), va / PGSIZE, MkPte(p, WithV(perm))) by {
      PoolHas(k.free, t');
    }
    ok := true;
  }

  lemma PoolHas(free: seq<nat>, t: Tables)
    ensures Pages(t) <= Pool(free, t)
  {
  }

  lemma LeafFlags(p: nat, perm: nat)
    requires perm < 1024
    ensures WithV(perm) < 1024 && PteV(MkPte(p, WithV(perm)))
    ensures PtePage(MkPte(p, WithV(perm))) == p && PteFlags(MkPte(p, WithV(perm))) == WithV(perm)
  {
    hide MkPte, PtePage, PteFlags;
    PteParts(p, WithV(perm));
  }

  lemma AfterWalk(m0: Ram, t0: Tables, m1: Ram, t1: Tables, m2: Ram, small: set<nat>, s: set<nat>, v: nat, e: nat)
    requires SameLeaves(m0, t0, m1, t1) && Touched(m0, m1, s) && small <= s
    requires LeafSet(m1, t1, m2, t1, v, e) && Touched(m1, m2, small)
    ensures LeafSet(m0, t0, m2, t1, v, e) && Touched(m0, m2, s)
  {
  }

  lemma RangeStart(m0: Ram, t0: Tables, first: nat, p: nat, flags: nat)
    ensures MappedRange(m0, t0, m0, t0, first, 0, p, flags)
  {
  }

  lemma RangeStep(m0: Ram, t0: Tables, m1: Ram, t1: Tables, m2: Ram, t2: Tables, first: nat, n: nat, p: nat, flags: nat)
    requires MappedRange(m0, t0, m1, t1, first, n, p, flags)
    requires LeafSet(m1, t1, m2, t2, first + n, MkPte(p + n, flags))
    ensures MappedRange(m0, t0, m2, t2, first, n + 1, p, flags)
  {
    hide LeafPte;
  }

  lemma RangeSame(m0: Ram, t0: Tables, m1: Ram, t1: Tables, m2: Ram, t2: Tables, first: nat, n: nat, p: nat, flags: nat)
    requires MappedRange(m0, t0, m1, t1, first, n, p, flags) && SameLeaves(m1, t1, m2, t2)
    ensures MappedRange(m0, t0, m2, t2, first, n, p, flags)
  {
    hide LeafPte;
  }

  lemma RangeNext(m0: Ram, t0: Tables, m1: Ram, t1: Tables, first: nat, n: nat, p: nat, flags: nat)
    requires MappedRange(m0, t0, m1, t1, first, n, p, flags) && first + n < MAXVPN
    ensures LeafPte(m1, t1, first + n) == LeafPte(m0, t0, first + n)
  {
  }

  lemma TouchedTwice(m0: Ram, m1: Ram, m2: Ram, s: set<nat>)
    requires Touched(m0, m1, s) && Touched(m1, m2, s)
    ensures Touched(m0, m2, s)
  {
  }

  /** Map the pages of [va, va + size) to consecutive physical pages from p on.  On failure
      the first n of them have been mapped. */
  method Mappages(k: Kmem, pagetable: nat, va: nat, size: nat, p: nat, perm: nat, ghost t: Tables)
    returns (ok: bool, ghost n: nat, ghost t': Tables)
    requires Ready(k, t) && t[ROOT] == pagetable && size > 0 && va + size <= MAXVA
    requires forall v: nat :: va / PGSIZE <= v <= (va + size - 1) / PGSIZE ==> LeafPte(k.mem, t, v) == 0
    requires perm < 1024 && p <= PHYSTOP_PAGE
    modifies k
    ensures Ready(k, t') && t'[ROOT] == pagetable
    ensures Pool(k.free, t') == Pool(old(k.free), t) && Touched(old(k.mem), k.mem, Pool(k.free, t'))
    ensures MappedRange(old(k.mem), t, k.mem, t', va / PGSIZE, n, p, WithV(perm))
    ensures ok ==> n == (va + size - 1) / PGSIZE - va / PGSIZE + 1 && |k.free| + 2 * n >= |old(k.free)|
    ensures !ok ==> n <= (va + size - 1) / PGSIZE - va / PGSIZE && k.free == [] && |old(k.free)| <= 2 * n + 1
  {
    hide TablesOk, LeafPte, Touched, Pool, SameLeaves, LeafSet, Apart, MkPte, WithV, MappedRange;
    var a := va / PGSIZE;
    var last := (va + size - 1) / PGSIZE;
    ghost var first := a;
    n, t' := 0, t;
    RangeStart(k.mem, t, first, p, WithV(perm));
    NoChange(k.mem, t, Pool(k.free, t));
    var q := p;
    while true
      invariant a == first + n <= last && q == p + n && |k.free| + 2 * n >= |old(k.free)|
      invariant Ready(k, t') && t'[ROOT] == pagetable
      invariant Pool(k.free, t') == Pool(old(k.free), t) && Touched(old(k.mem), k.mem, Pool(k.free, t'))
      invariant MappedRange(old(k.mem), t, k.mem, t', first, n, p, WithV(perm))
      decreases last - a
    {
      ghost var m1, t1 := k.mem, t';
      RangeNext(old(k.mem), t, m1, t1, first, n, p, WithV(perm));
      ok, t' := MapPage(k, pagetable, PGSIZE * a, q, perm, t1);
      TouchedTwice(old(k.mem), m1, k.mem, Pool(k.free, t'));
      if !ok {
        RangeSame(old(k.mem), t, m1, t1, k.mem, t', first, n, p, WithV(perm));
        return;
      }
      RangeStep(old(k.mem), t, m1, t1, k.mem, t', first, n, p, WithV(perm));
      n := n + 1;
      if a == last { return; }
      a := a + 1;
      q := q + 1;
    }
  }

  predicate InRange(v: nat, lo: nat, hi: nat)
  {
    lo <= v < hi
  }

  /** Virtual pages lo..hi mapped to consecutive pages from p on. */
  ghost function Straight(lo: nat, hi: nat, p: nat, flags: nat): (m: map<nat, nat>)
  {
    map v: nat | v < hi && InRange(v, lo, hi) :: MkPte(p + v - lo, flags)
  }

  /** mappages inserts its pages into the finite map and changes nothing else. */
  lemma MapInserts(m0: Ram, t0: Tables, m1: Ram, t1: Tables, first: nat, n: nat, p: nat, flags: nat)
    requires MappedRange(m0, t0, m1, t1, first, n, p, flags) && first + n <= MAXVPN && flags % 2 == 1
    ensures Mapping(m1, t1) == Mapping(m0, t0) + Straight(first, first + n, p, flags)
  {
    hide LeafPte, MkPte, PteV;
    forall v: nat | first <= v < first + n ensures PteV(LeafPte(m1, t1, v)) { OddFlags(p + v - first, flags); }
    var was, now, more := Mapping(m0, t0), Mapping(m1, t1), Straight(first, first + n, p, flags);
    forall v: nat ensures v in now <==> v in was + more { assert v in more <==> InRange(v, first, first + n); }
    forall v: nat | v in now ensures now[v] == (was + more)[v] { }
  }

  lemma OddFlags(p: nat, flags: nat)
    requires flags % 2 == 1
    ensures PteV(MkPte(p, flags))
  {
    assert 1024 * p + flags == 2 * (512 * p) + flags;
  }
}
