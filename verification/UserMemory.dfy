/** User address spaces of kernel/vm.c: growing, shrinking, copying and freeing
    them, with every page accounted for. */
module UserMemory {
  import opened Words
  import opened Counting
  import opened PageAllocator
  import opened PageTable
  import opened VirtualMemory

  const USERTOP: nat := 0x3FF_FFFE  // TRAPFRAME / PGSIZE, where user memory ends
  const PTE_URWX: nat := 0x1E       // PTE_W | PTE_X | PTE_R | PTE_U

  /** The page that virtual page v is mapped to. */
  function Frame(mem: Ram, t: Tables, v: nat): (p: nat)
  {
    PtePage(LeafPte(mem, t, v))
  }

  ghost function Frames(mem: Ram, t: Tables, lo: nat, hi: nat): (s: set<nat>)
    ensures forall v: nat :: lo <= v < hi ==> Frame(mem, t, v) in s
  {
    set v: nat | lo <= v < hi :: Frame(mem, t, v)
  }

  ghost predicate FrameOk(mem: Ram, pool: set<nat>, t: Tables, v: nat)
  {
    PteMapped(LeafPte(mem, t, v)) && Frame(mem, t, v) in mem && Frame(mem, t, v) !in pool
  }

  /** Virtual pages lo..hi are mapped, each to a page of its own outside pool. */
  ghost predicate Private(mem: Ram, pool: set<nat>, t: Tables, lo: nat, hi: nat)
  {
    && (forall v: nat :: lo <= v < hi ==> FrameOk(mem, pool, t, v))
    && (forall v: nat, w: nat :: lo <= v < w < hi ==> Frame(mem, t, v) != Frame(mem, t, w))
  }

  // ---- Unmapping --------------------------------------------------------

  lemma FreeFrame(mem: Ram, mem': Ram, t: Tables, p: nat)
    requires TablesOk(mem, t) && p !in Pages(t) && p in mem' && mem' == mem[p := mem'[p]]
    ensures TablesOk(mem', t) && SameLeaves(mem, t, mem', t)
  {
    hide TablesOk;
    TablesFrame(mem, mem', t);
  }

  /** One iteration of uvmunmap; its panics cannot happen for a mapped page. */
  method UnmapPage(k: Kmem, pagetable: nat, v: nat, doFree: bool, ghost t: Tables)
    requires Ready(k, t) && t[ROOT] == pagetable && v < MAXVPN && PteMapped(LeafPte(k.mem, t, v))
    requires doFree ==> FrameOk(k.mem, Pool(k.free, t), t, v)
    modifies k
    ensures Ready(k, t) && LeafSet(old(k.mem), t, k.mem, t, v, 0)
    ensures k.free == if doFree then [Frame(old(k.mem), t, v)] + old(k.free) else old(k.free)
    ensures Touched(old(k.mem), k.mem, Pages(t) + if doFree then {Frame(old(k.mem), t, v)} else {})
  {
    hide TablesOk, LeafPte, Touched, SameLeaves, LeafSet;
    var table, pte := Load(k, pagetable, PGSIZE * v, t);
    if table == 0 || !PteV(pte) || PteFlags(pte) == 1 { assert false; }
    ghost var p := PtePage(pte);
    NoChange(k.mem, t, {p});
    if doFree {
      k.Kfree(PtePage(pte));
      FreeFrame(old(k.mem), k.mem, t, p);
      FreedTouch(old(k.mem), k.mem, p);
    }
    ghost var m1 := k.mem;
    Store(k, table, PGSIZE * v, 0, t);
    Unmapped(old(k.mem), m1, k.mem, t, v, Pages(t), if doFree then {p} else {});
  }

  lemma FreedTouch(mem: Ram, mem': Ram, p: nat)
    requires p in mem && p in mem' && mem' == mem[p := mem'[p]]
    ensures Touched(mem, mem', {p})
  {
  }

  lemma Unmapped(m0: Ram, m1: Ram, m2: Ram, t: Tables, v: nat, a: set<nat>, b: set<nat>)
    requires SameLeaves(m0, t, m1, t) && (Touched(m0, m1, b) || m1 == m0)
    requires LeafSet(m1, t, m2, t, v, 0) && Touched(m1, m2, a)
    ensures LeafSet(m0, t, m2, t, v, 0) && Touched(m0, m2, a + b)
  {
  }

  /** Pages lo..hi are unmapped; the other entries are as they were. */
  ghost predicate Cleared(m0: Ram, m1: Ram, t: Tables, lo: nat, hi: nat)
  {
    forall v: nat :: v < MAXVPN ==> LeafPte(m1, t, v) == if lo <= v < hi then 0 else LeafPte(m0, t, v)
  }

  lemma ClearStart(m: Ram, t: Tables, lo: nat)
    ensures Cleared(m, m, t, lo, lo) && Frames(m, t, lo, lo) == {}
  {
  }

  lemma ClearStep(m0: Ram, m1: Ram, m2: Ram, t: Tables, lo: nat, v: nat)
    requires Cleared(m0, m1, t, lo, v) && LeafSet(m1, t, m2, t, v, 0) && lo <= v < MAXVPN
    ensures Cleared(m0, m2, t, lo, v + 1)
    ensures Frame(m1, t, v) == Frame(m0, t, v) && Frames(m0, t, lo, v + 1) == Frames(m0, t, lo, v) + {Frame(m0, t, v)}
  {
    hide LeafPte;
    assert LeafPte(m1, t, v) == LeafPte(m0, t, v);
    forall p ensures p in Frames(m0, t, lo, v + 1) <==> p in Frames(m0, t, lo, v) + {Frame(m0, t, v)} { }
  }

  /** Freeing page v leaves the rest of the range as it was. */
  lemma PrivateRest(m1: Ram, free: seq<nat>, m2: Ram, free': seq<nat>, t: Tables, v: nat, hi: nat)
    requires Private(m1, Pool(free, t), t, v, hi) && v < hi <= MAXVPN && LeafSet(m1, t, m2, t, v, 0)
    requires m2.Keys == m1.Keys && free' == [Frame(m1, t, v)] + free
    ensures Private(m2, Pool(free', t), t, v + 1, hi)
  {
    hide LeafPte;
    forall w: nat | v + 1 <= w < hi ensures FrameOk(m2, Pool(free', t), t, w) && Frame(m2, t, w) == Frame(m1, t, w) {
      assert LeafPte(m2, t, w) == LeafPte(m1, t, w) && FrameOk(m1, Pool(free, t), t, w);
      assert Frame(m1, t, w) != Frame(m1, t, v);
      assert Frame(m1, t, w) !in free by { assert Frame(m1, t, w) !in Elems(free); }
    }
  }

  /** uvmunmap with do_free: unmap pages lo..hi and free the pages behind them. */
  method UnmapAndFree(k: Kmem, pagetable: nat, lo: nat, hi: nat, ghost t: Tables)
    requires Ready(k, t) && t[ROOT] == pagetable && lo <= hi <= MAXVPN
    requires Private(k.mem, Pool(k.free, t), t, lo, hi)
    modifies k
    ensures Ready(k, t) && Cleared(old(k.mem), k.mem, t, lo, hi)
    ensures Elems(k.free) == Elems(old(k.free)) + Frames(old(k.mem), t, lo, hi)
    ensures Touched(old(k.mem), k.mem, Pages(t) + Frames(old(k.mem), t, lo, hi))
  {
    hide TablesOk, LeafPte, Touched, SameLeaves, LeafSet, Cleared, Private, Pool, Apart, Frames, FrameOk, Elems, Pages;
    var v := lo;
    ClearStart(k.mem, t, lo);
    NoChange(k.mem, t, Pages(t) + Frames(old(k.mem), t, lo, lo));
    while v < hi
      invariant lo <= v <= hi && Ready(k, t) && Cleared(old(k.mem), k.mem, t, lo, v)
      invariant Private(k.mem, Pool(k.free, t), t, v, hi)
      invariant Elems(k.free) == Elems(old(k.free)) + Frames(old(k.mem), t, lo, v)
      invariant Touched(old(k.mem), k.mem, Pages(t) + Frames(old(k.mem), t, lo, v))
    {
      ghost var m1, f1 := k.mem, k.free;
      FirstPrivate(k.mem, Pool(k.free, t), t, v, hi);
      UnmapPage(k, pagetable, v, true, t);
      ClearStep(old(k.mem), m1, k.mem, t, lo, v);
      ElemsPush(Frame(m1, t, v), f1);
      TouchedKeys(m1, k.mem, Pages(t) + {Frame(m1, t, v)});
      PrivateRest(m1, f1, k.mem, k.free, t, v, hi);
      TouchedMore(old(k.mem), m1, k.mem, Pages(t) + Frames(old(k.mem), t, lo, v), Pages(t) + {Frame(m1, t, v)},
                  Pages(t) + Frames(old(k.mem), t, lo, v + 1));
      v := v + 1;
    }
  }

  /** uvmunmap removes its pages from the finite map and changes nothing else. */
  lemma UnmapRemoves(m0: Ram, m1: Ram, t: Tables, lo: nat, hi: nat)
    requires Cleared(m0, m1, t, lo, hi)
    ensures Mapping(m1, t) == Mapping(m0, t) - set v: nat | v < hi && InRange(v, lo, hi)
  {
    hide LeafPte;
  }

  lemma FirstPrivate(mem: Ram, pool: set<nat>, t: Tables, v: nat, hi: nat)
    requires Private(mem, pool, t, v, hi) && v < hi
    ensures FrameOk(mem, pool, t, v)
  {
  }

  lemma TouchedKeys(m1: Ram, m2: Ram, s: set<nat>)
    requires Touched(m1, m2, s)
    ensures m2.Keys == m1.Keys
  {
  }

  lemma TouchedMore(m0: Ram, m1: Ram, m2: Ram, a: set<nat>, b: set<nat>, s: set<nat>)
    requires Touched(m0, m1, a) && Touched(m1, m2, b) && a <= s && b <= s
    ensures Touched(m0, m2, s)
  {
  }

  /** uvmunmap without do_free, as for the trampoline and trapframe pages. */
  method UnmapOnly(k: Kmem, pagetable: nat, lo: nat, hi: nat, ghost t: Tables)
    requires Ready(k, t) && t[ROOT] == pagetable && lo <= hi <= MAXVPN
    requires forall v: nat :: lo <= v < hi ==> PteMapped(LeafPte(k.mem, t, v))
    modifies k
    ensures Ready(k, t) && Cleared(old(k.mem), k.mem, t, lo, hi)
    ensures k.free == old(k.free) && Touched(old(k.mem), k.mem, Pages(t))
  {
    hide TablesOk, LeafPte, Touched, SameLeaves, Pool, Apart;
    var v := lo;
    ClearStart(k.mem, t, lo);
    NoChange(k.mem, t, Pages(t));
    while v < hi
      invariant lo <= v <= hi && Ready(k, t) && Cleared(old(k.mem), k.mem, t, lo, v)
      invariant k.free == old(k.free) && Touched(old(k.mem), k.mem, Pages(t))
    {
      ghost var m1 := k.mem;
      assert LeafPte(k.mem, t, v) == LeafPte(old(k.mem), t, v);
      UnmapPage(k, pagetable, v, false, t);
      assert Pages(t) + {} == Pages(t);
      TouchedTwice(old(k.mem), m1, k.mem, Pages(t));
      ClearStep(old(k.mem), m1, k.mem, t, lo, v);
      v := v + 1;
    }
  }

  // ---- Address spaces ---------------------------------------------------

  /** An address space with n user pages: they are mapped to pages of their own, and from
      there up to the trapframe nothing is mapped. */
  ghost predicate Space(k: Kmem, t: Tables, n: nat)
    reads k
    ensures Space(k, t, n) ==> Ready(k, t) && n <= USERTOP
  {
    && Ready(k, t) && n <= USERTOP
    && Private(k.mem, Pool(k.free, t), t, 0, n) && Clear(k.mem, t, n, USERTOP)
  }

  ghost predicate Clear(mem: Ram, t: Tables, lo: nat, hi: nat)
  {
    forall v: nat :: lo <= v < hi ==> LeafPte(mem, t, v) == 0
  }

  /** Virtual pages lo..hi have the entries and the bytes they had. */
  ghost predicate SamePages(m0: Ram, t0: Tables, m1: Ram, t1: Tables, lo: nat, hi: nat)
  {
    forall v: nat :: lo <= v < hi ==> SamePage(m0, t0, m1, t1, v)
  }

  ghost predicate SamePage(m0: Ram, t0: Tables, m1: Ram, t1: Tables, v: nat)
  {
    && LeafPte(m1, t1, v) == LeafPte(m0, t0, v)
    && Frame(m0, t0, v) in m0 && Frame(m0, t0, v) in m1 && m1[Frame(m0, t0, v)] == m0[Frame(m0, t0, v)]
  }

  /** An empty page table; 0 when out of memory. */
  method Uvmcreate(k: Kmem) returns (pagetable: nat, ghost t: Tables)
    requires k.Valid()
    modifies k
    ensures k.Valid()
    ensures old(k.free) == [] ==> pagetable == 0 && unchanged(k)
    ensures old(k.free) != [] ==>
              && pagetable == old(k.free)[0] && k.free == old(k.free)[1..] && t == map[ROOT := pagetable]
              && Space(k, t, 0) && Clear(k.mem, t, 0, MAXVPN)
              && Touched(old(k.mem), k.mem, {pagetable})
  {
    hide Quad, Chained;
    t := map[];
    pagetable := k.Kalloc();
    if pagetable == 0 { return; }
    NewRoot(k.mem, k.free, pagetable);
    k.mem := k.mem[pagetable := Zeroes(PGSIZE)];
    t := map[ROOT := pagetable];
  }

  lemma NewRoot(mem: Ram, free: seq<nat>, p: nat)
    requires Chained(mem, free) && p in mem && p !in free && 0 < p < PHYSTOP_PAGE
    ensures var mem', t := mem[p := Zeroes(PGSIZE)], map[ROOT := p];
            Chained(mem', free) && TablesOk(mem', t) && Apart(free, t) && Clear(mem', t, 0, MAXVPN)
  {
    hide Quad;
    var mem', t := mem[p := Zeroes(PGSIZE)], map[ROOT := p];
    forall q | q in free ensures q in mem && q != p { ChainPage(mem, free, q); }
    ChainFrame(mem, mem', free);
    forall pl, k: nat | pl in t && k < 512 ensures EntryOk(mem', t, pl, k) { }
    forall q | q in free ensures q !in Pages(t) { }
  }

  /** Virtual page v now has a page of its own with these flags and bytes; the page came
      from the pool, and nothing outside the pool has changed. */
  ghost predicate PageAdded(m0: Ram, f0: seq<nat>, t0: Tables, m1: Ram, f1: seq<nat>, t1: Tables, v: nat, data: Page,
                            flags: nat)
  {
    var p := Frame(m1, t1, v);
    && SamePages(m0, t0, m1, t1, 0, v) && SameAbove(m0, t0, m1, t1)
    && LeafPte(m1, t1, v) == MkPte(p, flags) && p in m1 && m1[p] == data
    && Pool(f1, t1) + {p} == Pool(f0, t0) && p !in Pool(f1, t1)
    && Touched(m0, m1, Pool(f0, t0))
  }

  /** The trapframe and trampoline entries are as they were. */
  ghost predicate SameAbove(m0: Ram, t0: Tables, m1: Ram, t1: Tables)
  {
    forall w: nat :: USERTOP <= w < MAXVPN ==> LeafPte(m1, t1, w) == LeafPte(m0, t0, w)
  }

  /** All entries and user bytes are as they were. */
  ghost predicate Unaffected(m0: Ram, f0: seq<nat>, t0: Tables, m1: Ram, f1: seq<nat>, t1: Tables, n: nat)
  {
    SamePages(m0, t0, m1, t1, 0, n) && SameLeaves(m0, t0, m1, t1) && Pool(f1, t1) == Pool(f0, t0)
    && Touched(m0, m1, Pool(f0, t0))
  }

  lemma PoolPop(free: seq<nat>, t: Tables)
    requires free != [] && Apart(free, t) && Distinct(free)
    ensures Pool(free, t) == Pool(free[1..], t) + {free[0]} && free[0] !in Pool(free[1..], t)
  {
    var p := free[0];
    assert p in free && free == [p] + free[1..];
    ElemsPush(p, free[1..]);
    forall q | q in free[1..] ensures q != p { }
  }

  /** Pages outside the pool are neither tables nor free, so neither allocation nor mapping
      disturbs them. */
  lemma OutsidePool(m0: Ram, t0: Tables, m1: Ram, t1: Tables, pool: set<nat>, n: nat)
    requires Private(m0, pool, t0, 0, n) && Touched(m0, m1, pool) && n <= MAXVPN
    requires forall v: nat :: v < n ==> LeafPte(m1, t1, v) == LeafPte(m0, t0, v)
    ensures SamePages(m0, t0, m1, t1, 0, n)
    ensures Private(m1, pool, t1, 0, n)
  {
    hide LeafPte;
    forall v: nat | v < n ensures SamePage(m0, t0, m1, t1, v) && FrameOk(m1, pool, t1, v) {
      assert FrameOk(m0, pool, t0, v);
    }
    forall v: nat, w: nat | v < w < n ensures Frame(m1, t1, v) != Frame(m1, t1, w) {
      assert Frame(m0, t0, v) != Frame(m0, t0, w);
    }
  }

  lemma SmallerPool(mem: Ram, pool: set<nat>, pool': set<nat>, t: Tables, n: nat)
    requires Private(mem, pool, t, 0, n) && pool' <= pool
    ensures Private(mem, pool', t, 0, n)
  {
    forall v: nat | v < n ensures FrameOk(mem, pool', t, v) { assert FrameOk(mem, pool, t, v); }
  }

  lemma PrivatePush(mem: Ram, pool: set<nat>, t: Tables, v: nat, p: nat, flags: nat)
    requires Private(mem, pool + {p}, t, 0, v) && LeafPte(mem, t, v) == MkPte(p, flags)
    requires 1 < flags < 1024 && flags % 2 == 1 && p in mem && p !in pool
    ensures Private(mem, pool, t, 0, v + 1) && Frame(mem, t, v) == p
  {
    hide LeafPte, MkPte, PtePage, PteFlags;
    PteParts(p, flags);
    SmallerPool(mem, pool + {p}, pool, t, v);
    assert Frame(mem, t, v) == p;
    forall w: nat | w < v ensures Frame(mem, t, w) != p { assert FrameOk(mem, pool + {p}, t, w); }
    forall w: nat | w < v + 1 ensures FrameOk(mem, pool, t, w) { if w < v { assert FrameOk(mem, pool, t, w); } }
  }

  /** kalloc succeeded and so did mappages. */
  lemma AddedOk(m0: Ram, f0: seq<nat>, t0: Tables, m1: Ram, m2: Ram, f2: seq<nat>, t2: Tables, v: nat, data: Page,
                perm: nat)
    requires TablesOk(m0, t0) && Apart(f0, t0) && Distinct(f0) && f0 != [] && f0[0] in m0
    requires Private(m0, Pool(f0, t0), t0, 0, v) && Clear(m0, t0, v, USERTOP) && v < USERTOP && 1 < perm < 1024
    requires m1 == m0[f0[0] := data] && Pool(f2, t2) == Pool(f0[1..], t0) && Touched(m1, m2, Pool(f2, t2))
    requires MappedRange(m1, t0, m2, t2, v, 1, f0[0], WithV(perm))
    ensures Private(m2, Pool(f2, t2), t2, 0, v + 1) && Clear(m2, t2, v + 1, USERTOP)
    ensures PageAdded(m0, f0, t0, m2, f2, t2, v, data, WithV(perm))
  {
    hide TablesOk, LeafPte, Private, Pool, Apart, MkPte, WithV;
    var p := f0[0];
    PoolPop(f0, t0);
    FirstFreeApart(f0, t0);
    FreeFrame(m0, m1, t0, p);
    assert Touched(m0, m2, Pool(f0, t0));
    OutsidePool(m0, t0, m2, t2, Pool(f0, t0), v);
    assert LeafPte(m2, t2, v) == MkPte(p, WithV(perm));
    assert 1 < WithV(perm) < 1024 && WithV(perm) % 2 == 1 by { VFlag(perm); }
    PrivatePush(m2, Pool(f2, t2), t2, v, p, WithV(perm));
  }

  lemma VFlag(perm: nat)
    requires 1 < perm < 1024
    ensures 1 < WithV(perm) < 1024 && WithV(perm) % 2 == 1
  {
  }

  lemma FirstFreeApart(free: seq<nat>, t: Tables)
    requires free != [] && Apart(free, t)
    ensures free[0] !in Pages(t)
  {
    assert free[0] in free;
  }

  /** kalloc succeeded, mappages failed, and the page was freed again. */
  lemma NotAdded(m0: Ram, f0: seq<nat>, t0: Tables, m1: Ram, m2: Ram, f2: seq<nat>, t2: Tables, m3: Ram, v: nat,
                 data: Page, p: nat, flags: nat)
    requires TablesOk(m0, t0) && Apart(f0, t0) && Distinct(f0) && f0 != [] && f0[0] == p && p in m0
    requires Private(m0, Pool(f0, t0), t0, 0, v) && v < USERTOP
    requires m1 == m0[p := data] && Pool(f2, t2) == Pool(f0[1..], t0) && Touched(m1, m2, Pool(f2, t2))
    requires MappedRange(m1, t0, m2, t2, v, 0, p, flags) && TablesOk(m2, t2)
    requires p in m2 && p in m3 && m3 == m2[p := m3[p]]
    ensures TablesOk(m3, t2) && Unaffected(m0, f0, t0, m3, [p] + f2, t2, v)
    ensures p !in Pool(f2, t2) && Private(m3, Pool([p] + f2, t2), t2, 0, v)
  {
    hide TablesOk, LeafPte, Private, Apart;
    PoolPop(f0, t0);
    FirstFreeApart(f0, t0);
    FreeFrame(m0, m1, t0, p);
    ElemsPush(p, f2);
    assert Pool([p] + f2, t2) == Pool(f0, t0) && p !in Pages(t2);
    FreeFrame(m2, m3, t2, p);
    assert Touched(m0, m3, Pool(f0, t0));
    assert SameLeaves(m0, t0, m3, t2);
    OutsidePool(m0, t0, m3, t2, Pool(f0, t0), v);
  }

  lemma ApartPush(p: nat, free: seq<nat>, t: Tables)
    requires Apart(free, t) && p !in Pool(free, t)
    ensures Apart([p] + free, t) && p !in free
  {
    assert p !in Elems(free);
  }

  lemma NotTried(mem: Ram, free: seq<nat>, t: Tables, n: nat)
    requires Private(mem, Pool(free, t), t, 0, n) && n <= MAXVPN
    ensures Unaffected(mem, free, t, mem, free, t, n)
  {
    OutsidePool(mem, t, mem, t, Pool(free, t), n);
  }

  lemma OnePageRange(mem: Ram, mem': Ram, t: Tables, v: nat)
    requires SameLeaves(mem, t, mem', t) && Clear(mem, t, v, USERTOP) && v < USERTOP
    ensures (PGSIZE * v + PGSIZE - 1) / PGSIZE == v && PGSIZE * v / PGSIZE == v
    ensures LeafPte(mem', t, v) == 0
  {
  }

  /** kalloc, fill with data, and map at virtual page v. */
  method AddPage(k: Kmem, pagetable: nat, v: nat, data: Page, perm: nat, ghost t: Tables)
    returns (ok: bool, ghost t': Tables)
    requires Space(k, t, v) && t[ROOT] == pagetable && v < USERTOP && 1 < perm < 1024
    modifies k
    ensures Space(k, t', if ok then v + 1 else v) && t'[ROOT] == pagetable
    ensures ok ==> PageAdded(old(k.mem), old(k.free), t, k.mem, k.free, t', v, data, WithV(perm))
    ensures !ok ==> Unaffected(old(k.mem), old(k.free), t, k.mem, k.free, t', v)
    ensures if ok then |k.free| + 3 >= |old(k.free)| else |old(k.free)| <= 2
  {
    hide TablesOk, LeafPte, Private, Pool, Apart, MkPte, WithV, Touched, MappedRange, Clear, PageAdded, Unaffected;
    t' := t;
    ghost var m0, f0 := k.mem, k.free;
    var p := k.Kalloc();
    if p == 0 {
      NotTried(k.mem, k.free, t, v);
      return false, t;
    }
    FirstFreeApart(f0, t);
    FreeFrame(m0, m0[p := data], t, p);
    ChainTail(m0, f0, data);
    k.mem := k.mem[p := data];
    ghost var m1, n := k.mem, 0;
    assert m1 == m0[p := data];
    ApartTail(f0, t);
    OnePageRange(m0, m1, t, v);
    ok, n, t' := Mappages(k, pagetable, PGSIZE * v, PGSIZE, p, perm, t);
    if ok {
      AddedOk(m0, f0, t, m1, k.mem, k.free, t', v, data, perm);
      return;
    }
    ghost var m2, f2 := k.mem, k.free;
    TouchedKeys(m1, m2, Pool(f2, t'));
    PoolPop(f0, t);
    ApartPush(p, f2, t');
    k.Kfree(p);
    NotAdded(m0, f0, t, m1, m2, f2, t', k.mem, v, data, p, WithV(perm));
    StillClear(m0, f0, t, k.mem, k.free, t', v);
  }

  lemma ChainTail(mem: Ram, free: seq<nat>, data: Page)
    requires Chained(mem, free) && free != []
    ensures Chained(mem[free[0] := data], free[1..])
  {
    ChainPop(mem, free);
    forall q | q in free[1..] ensures q in mem && q != free[0] { ChainPage(mem, free[1..], q); }
    ChainFrame(mem, mem[free[0] := data], free[1..]);
  }

  lemma ApartTail(free: seq<nat>, t: Tables)
    requires Apart(free, t) && free != []
    ensures Apart(free[1..], t)
  {
    assert forall p :: p in free[1..] ==> p in free;
  }

  lemma StillClear(m0: Ram, f0: seq<nat>, t0: Tables, m1: Ram, f1: seq<nat>, t1: Tables, v: nat)
    requires Clear(m0, t0, v, USERTOP) && Unaffected(m0, f0, t0, m1, f1, t1, v)
    ensures Clear(m1, t1, v, USERTOP)
  {
  }

  // ---- Growing and shrinking --------------------------------------------

  /** What a page should hold: its bytes and its flags. */
  type Want = (Page, nat)

  /** Virtual page v is page v - lo of the wanted ones. */
  ghost predicate HoldsPage(mem: Ram, t: Tables, lo: nat, want: seq<Want>, v: nat)
    requires lo <= v < lo + |want|
  {
    var p := Frame(mem, t, v);
    LeafPte(mem, t, v) == MkPte(p, want[v - lo].1) && p in mem && mem[p] == want[v - lo].0
  }

  /** Pages from lo on have been added with the wanted contents; pages below lo and above
      user memory are as they were, and every page came from the pool. */
  ghost predicate Extended(m0: Ram, f0: seq<nat>, t0: Tables, m1: Ram, f1: seq<nat>, t1: Tables, lo: nat,
                           want: seq<Want>)
  {
    && SamePages(m0, t0, m1, t1, 0, lo) && SameAbove(m0, t0, m1, t1) && Touched(m0, m1, Pool(f0, t0))
    && Pool(f1, t1) + Frames(m1, t1, lo, lo + |want|) == Pool(f0, t0)
    && forall v: nat :: lo <= v < lo + |want| ==> HoldsPage(m1, t1, lo, want, v)
  }

  lemma ExtendNone(mem: Ram, free: seq<nat>, t: Tables, lo: nat)
    requires Private(mem, Pool(free, t), t, 0, lo) && lo <= MAXVPN
    ensures Extended(mem, free, t, mem, free, t, lo, [])
  {
    NotTried(mem, free, t, lo);
  }

  lemma ExtendStep(m0: Ram, f0: seq<nat>, t0: Tables, m1: Ram, f1: seq<nat>, t1: Tables,
                   m2: Ram, f2: seq<nat>, t2: Tables, lo: nat, want: seq<Want>, x: Want)
    requires Extended(m0, f0, t0, m1, f1, t1, lo, want)
    requires PageAdded(m1, f1, t1, m2, f2, t2, lo + |want|, x.0, x.1)
    ensures Extended(m0, f0, t0, m2, f2, t2, lo, want + [x])
  {
    hide LeafPte, Pool;
    var v := lo + |want|;
    assert |want + [x]| == |want| + 1;
    FramesSame(m1, t1, m2, t2, lo, v);
    forall w: nat | lo <= w < v + 1 ensures HoldsPage(m2, t2, lo, want + [x], w) {
      if w < v {
        assert HoldsPage(m1, t1, lo, want, w);
        assert SamePage(m1, t1, m2, t2, w);
      }
    }
    forall w: nat | w < lo ensures SamePage(m0, t0, m2, t2, w) {
      assert SamePage(m0, t0, m1, t1, w);
      assert SamePage(m1, t1, m2, t2, w);
    }
  }

  lemma FramesSame(m1: Ram, t1: Tables, m2: Ram, t2: Tables, lo: nat, v: nat)
    requires SamePages(m1, t1, m2, t2, 0, v) && lo <= v
    ensures Frames(m2, t2, lo, v) == Frames(m1, t1, lo, v)
    ensures Frames(m2, t2, lo, v + 1) == Frames(m1, t1, lo, v) + {Frame(m2, t2, v)}
  {
    hide LeafPte;
    forall w: nat | lo <= w < v ensures Frame(m2, t2, w) == Frame(m1, t1, w) { assert SamePage(m1, t1, m2, t2, w); }
    forall p ensures p in Frames(m2, t2, lo, v) <==> p in Frames(m1, t1, lo, v) { }
  }

  /** Unmapping and freeing pages lo..hi of a space with hi pages. */
  lemma Shrunk(m0: Ram, f0: seq<nat>, t: Tables, m1: Ram, f1: seq<nat>, lo: nat, hi: nat)
    requires Private(m0, Pool(f0, t), t, 0, hi) && lo <= hi <= USERTOP && Clear(m0, t, hi, USERTOP)
    requires Cleared(m0, m1, t, lo, hi) && Elems(f1) == Elems(f0) + Frames(m0, t, lo, hi)
    requires Touched(m0, m1, Pages(t) + Frames(m0, t, lo, hi))
    ensures Private(m1, Pool(f1, t), t, 0, lo) && Clear(m1, t, lo, USERTOP)
    ensures SamePages(m0, t, m1, t, 0, lo) && SameAbove(m0, t, m1, t)
    ensures Pool(f1, t) == Pool(f0, t) + Frames(m0, t, lo, hi)
  {
    hide LeafPte;
    var pool := Pool(f0, t) + Frames(m0, t, lo, hi);
    forall v: nat | v < lo ensures FrameOk(m0, pool, t, v) {
      assert FrameOk(m0, Pool(f0, t), t, v);
      assert Frame(m0, t, v) !in Frames(m0, t, lo, hi);
    }
    assert pool == Pool(f1, t);
    assert Touched(m0, m1, pool);
    assert Private(m0, pool, t, 0, lo);
    OutsidePool(m0, t, m1, t, pool, lo);
  }

  lemma PrivatePart(mem: Ram, pool: set<nat>, t: Tables, lo: nat, hi: nat)
    requires Private(mem, pool, t, 0, hi)
    ensures Private(mem, pool, t, lo, hi)
  {
  }

  /** Below sz user code finds in one address space what it finds in the other. */
  ghost predicate SameForUser(m0: Ram, t0: Tables, m1: Ram, t1: Tables, sz: nat)
  {
    forall va: nat :: va < sz ==>
      && UserMapped(m1, t1, va) == UserMapped(m0, t0, va)
      && (UserMapped(m0, t0, va) ==> UserByte(m1, t1, va) == UserByte(m0, t0, va))
  }

  lemma SameUser(m0: Ram, t0: Tables, m1: Ram, t1: Tables, sz: nat)
    requires SamePages(m0, t0, m1, t1, 0, PageUp(sz))
    ensures SameForUser(m0, t0, m1, t1, sz)
  {
    hide LeafPte, PteV, PteU;
    forall va: nat | va < sz
      ensures UserMapped(m1, t1, va) == UserMapped(m0, t0, va)
      ensures UserMapped(m0, t0, va) ==> UserByte(m1, t1, va) == UserByte(m0, t0, va)
    {
      assert SamePage(m0, t0, m1, t1, va / PGSIZE);
    }
  }

  /** No page that begins at sz or above, up to the trapframe, is open to user code. */
  ghost predicate ClosedToUser(mem: Ram, t: Tables, sz: nat)
  {
    forall va: nat :: sz <= va / 0x1000 * 0x1000 && va < PGSIZE * USERTOP ==> !UserMapped(mem, t, va)
  }

  lemma ClearIsClosed(mem: Ram, t: Tables, sz: nat)
    requires Clear(mem, t, PageUp(sz), USERTOP)
    ensures ClosedToUser(mem, t, sz)
  {
    hide LeafPte;
    forall va: nat | sz <= va / 0x1000 * 0x1000 && va < PGSIZE * USERTOP ensures !UserMapped(mem, t, va) {
      PagesBetween(sz, PGSIZE * USERTOP, va);
      assert LeafPte(mem, t, va / PGSIZE) == 0;
    }
  }

  /** Shrink from oldsz to newsz bytes; growing is not this function's business. */
  method Uvmdealloc(k: Kmem, pagetable: nat, oldsz: nat, newsz: nat, ghost t: Tables) returns (r: nat)
    requires Space(k, t, PageUp(oldsz)) && t[ROOT] == pagetable
    modifies k
    ensures r == if newsz >= oldsz then oldsz else newsz
    ensures Space(k, t, PageUp(r)) && SamePages(old(k.mem), t, k.mem, t, 0, PageUp(r)) &&
              SameAbove(old(k.mem), t, k.mem, t)
    ensures SameForUser(old(k.mem), t, k.mem, t, r) && ClosedToUser(k.mem, t, r)
    ensures Elems(k.free) == Elems(old(k.free)) + Frames(old(k.mem), t, PageUp(r), PageUp(oldsz))
    ensures Touched(old(k.mem), k.mem, Pages(t) + Frames(old(k.mem), t, PageUp(r), PageUp(oldsz)))
  {
    hide TablesOk, LeafPte, Private, Pool, Apart, Touched, Clear, SamePages, SameAbove, Frames, Cleared;
    hide SameForUser, ClosedToUser;
    var lo, hi := PageUp(newsz), PageUp(oldsz);
    Unshrunk(k.mem, k.free, t, hi);
    if newsz >= oldsz {
      SameUser(k.mem, t, k.mem, t, oldsz);
      ClearIsClosed(k.mem, t, oldsz);
      return oldsz;
    }
    assert lo <= hi;
    if lo < hi {
      PrivatePart(k.mem, Pool(k.free, t), t, lo, hi);
      UnmapAndFree(k, pagetable, lo, hi, t);
      Shrunk(old(k.mem), old(k.free), t, k.mem, k.free, lo, hi);
    }
    SameUser(old(k.mem), t, k.mem, t, newsz);
    ClearIsClosed(k.mem, t, newsz);
    r := newsz;
  }

  lemma Unshrunk(mem: Ram, free: seq<nat>, t: Tables, n: nat)
    requires Private(mem, Pool(free, t), t, 0, n) && n <= MAXVPN
    ensures SamePages(mem, t, mem, t, 0, n) && SameAbove(mem, t, mem, t)
    ensures Frames(mem, t, n, n) == {} && Touched(mem, mem, Pages(t) + {})
  {
    NotTried(mem, free, t, n);
  }

  /** After a failed extension has been undone. */
  lemma Undone(m0: Ram, f0: seq<nat>, t0: Tables, m1: Ram, f1: seq<nat>, t1: Tables, m2: Ram, f2: seq<nat>, t2: Tables,
               m3: Ram, f3: seq<nat>, lo: nat, want: seq<Want>)
    requires Private(m0, Pool(f0, t0), t0, 0, lo) && Clear(m0, t0, lo, USERTOP)
    requires Extended(m0, f0, t0, m1, f1, t1, lo, want) && Unaffected(m1, f1, t1, m2, f2, t2, lo + |want|)
    requires lo + |want| <= USERTOP && Private(m2, Pool(f2, t2), t2, 0, lo + |want|)
    requires Cleared(m2, m3, t2, lo, lo + |want|) && Elems(f3) == Elems(f2) + Frames(m2, t2, lo, lo + |want|)
    requires Touched(m2, m3, Pages(t2) + Frames(m2, t2, lo, lo + |want|)) && Clear(m2, t2, lo + |want|, USERTOP)
    ensures Unaffected(m0, f0, t0, m3, f3, t2, lo)
  {
    hide LeafPte;
    var hi := lo + |want|;
    FramesSame(m1, t1, m2, t2, lo, hi);
    Shrunk(m2, f2, t2, m3, f3, lo, hi);
    assert Pool(f3, t2) == Pool(f0, t0);
    assert Touched(m0, m3, Pool(f0, t0));
    forall v: nat | v < MAXVPN ensures LeafPte(m3, t2, v) == LeafPte(m0, t0, v) {
      if v < lo { assert SamePage(m0, t0, m1, t1, v); }
    }
    OutsidePool(m0, t0, m3, t2, Pool(f0, t0), lo);
  }

  /** Undo an extension of n pages: free them and unmap them. */
  method Undo(k: Kmem, pagetable: nat, lo: nat, hi: nat, ghost m0: Ram, ghost f0: seq<nat>, ghost t0: Tables,
              ghost m1: Ram, ghost f1: seq<nat>, ghost t1: Tables, ghost t: Tables, ghost want: seq<Want>)
    requires Space(k, t, hi) && t[ROOT] == pagetable && hi == lo + |want|
    requires Private(m0, Pool(f0, t0), t0, 0, lo) && Clear(m0, t0, lo, USERTOP)
    requires Extended(m0, f0, t0, m1, f1, t1, lo, want) && Unaffected(m1, f1, t1, k.mem, k.free, t, hi)
    modifies k
    ensures Space(k, t, lo) && Unaffected(m0, f0, t0, k.mem, k.free, t, lo)
  {
    hide TablesOk, LeafPte, Private, Pool, Apart, Touched, Clear, Cleared, Unaffected, Extended;
    PrivatePart(k.mem, Pool(k.free, t), t, lo, hi);
    UnmapAndFree(k, pagetable, lo, hi, t);
    Shrunk(old(k.mem), old(k.free), t, k.mem, k.free, lo, hi);
    Undone(m0, f0, t0, m1, f1, t1, old(k.mem), old(k.free), t, k.mem, k.free, lo, want);
  }

  /** n zeroed pages that user code may read, write and execute. */
  ghost function ZeroPages(n: nat): (w: seq<Want>)
    ensures |w| == n
  {
    seq(n, _ => (Zeroes(PGSIZE), WithV(PTE_URWX)))
  }

  /** Every address of a page that begins in oldsz..newsz reads as zero in user code, which may
      read, write and execute there: V, R, W, X and U are the low five bits of an entry. */
  ghost predicate ZeroedForUser(mem: Ram, t: Tables, oldsz: nat, newsz: nat)
  {
    forall va: nat :: oldsz <= va / 0x1000 * 0x1000 && va < newsz ==>
      UserMapped(mem, t, va) && UserByte(mem, t, va) == 0 && LeafPte(mem, t, va / 0x1000) % 32 == 31
  }

  lemma AllFlags(p: nat)
    ensures var e := MkPte(p, WithV(PTE_URWX)); e % 32 == 31 && PteV(e) && PteU(e) && PtePage(e) == p
  {
    PteParts(p, 0x1F);
    LowFive(p);
    hide PteV, PtePage, PteFlags;
  }

  lemma LowFive(p: nat)
    ensures (1024 * p + 0x1F) % 32 == 31 && (1024 * p + 0x1F) / 16 % 2 == 1
  {
    var q := 32 * p;
    assert 1024 * p + 0x1F == 32 * q + 31;
  }

  lemma ZeroPageForUser(mem: Ram, t: Tables, lo: nat, n: nat, va: nat)
    requires lo <= va / PGSIZE < lo + n && va < MAXVA && 0 !in mem && HoldsPage(mem, t, lo, ZeroPages(n), va / PGSIZE)
    ensures UserMapped(mem, t, va) && UserByte(mem, t, va) == 0 && LeafPte(mem, t, va / PGSIZE) % 32 == 31
  {
    hide LeafPte, MkPte, WithV, PteV, PteU, PtePage;
    AllFlags(Frame(mem, t, va / PGSIZE));
  }

  lemma PagesBetween(oldsz: nat, newsz: nat, va: nat)
    requires oldsz <= va / 0x1000 * 0x1000 && va < newsz
    ensures PageUp(oldsz) <= va / PGSIZE < PageUp(newsz)
  {
  }

  lemma ZeroedAll(m0: Ram, f0: seq<nat>, t0: Tables, m1: Ram, f1: seq<nat>, t1: Tables, oldsz: nat, newsz: nat)
    requires oldsz <= newsz <= PGSIZE * USERTOP && 0 !in m1
    requires Extended(m0, f0, t0, m1, f1, t1, PageUp(oldsz), ZeroPages(PageUp(newsz) - PageUp(oldsz)))
    ensures ZeroedForUser(m1, t1, oldsz, newsz)
  {
    hide UserMapped, UserByte, LeafPte, ZeroPages, HoldsPage, PageUp;
    var lo, n := PageUp(oldsz), PageUp(newsz) - PageUp(oldsz);
    forall va: nat | oldsz <= va / 0x1000 * 0x1000 && va < newsz
      ensures UserMapped(m1, t1, va) && UserByte(m1, t1, va) == 0 && LeafPte(m1, t1, va / 0x1000) % 32 == 31
    {
      PagesBetween(oldsz, newsz, va);
      assert HoldsPage(m1, t1, lo, ZeroPages(n), va / PGSIZE);
      ZeroPageForUser(m1, t1, lo, n, va);
    }
  }

  /** Grow from oldsz to newsz bytes.  On failure nothing that the user sees has changed. */
  method Uvmalloc(k: Kmem, pagetable: nat, oldsz: nat, newsz: nat, ghost t: Tables)
    returns (r: nat, ghost ok: bool, ghost t': Tables)
    requires Space(k, t, PageUp(oldsz)) && t[ROOT] == pagetable && newsz <= PGSIZE * USERTOP
    modifies k
    ensures t'.Keys >= {ROOT} && t'[ROOT] == pagetable
    ensures newsz < oldsz ==> r == oldsz && ok && t' == t && unchanged(k)
    ensures newsz >= oldsz && ok ==>
              && r == newsz && Space(k, t', PageUp(newsz))
              && Extended(old(k.mem), old(k.free), t, k.mem, k.free, t', PageUp(oldsz),
                  ZeroPages(PageUp(newsz) - PageUp(oldsz)))
              && ZeroedForUser(k.mem, t', oldsz, newsz) && SameForUser(old(k.mem), t, k.mem, t', oldsz)
    ensures !ok ==> SameForUser(old(k.mem), t, k.mem, t', oldsz)
    ensures !ok ==> r == 0 && Space(k, t', PageUp(oldsz))
                    && Unaffected(old(k.mem), old(k.free), t, k.mem, k.free, t', PageUp(oldsz))
                    && |old(k.free)| < 3 * (PageUp(newsz) - PageUp(oldsz))
  {
    hide TablesOk, LeafPte, Private, Pool, Apart, Clear, Unaffected, Extended, PageAdded, ZeroedForUser, SameForUser;
    t', ok := t, true;
    if newsz < oldsz { return oldsz, true, t; }
    var lo := PageUp(oldsz);
    var a := lo;
    ghost var m0, f0 := k.mem, k.free;
    ExtendNone(m0, f0, t, lo);
    assert ZeroPages(0) == [];
    while PGSIZE * a < newsz
      invariant lo <= a <= PageUp(newsz) && |k.free| + 3 * (a - lo) >= |f0|
      invariant Space(k, t', a) && t'[ROOT] == pagetable
      invariant Extended(m0, f0, t, k.mem, k.free, t', lo, ZeroPages(a - lo))
      decreases PageUp(newsz) - a
    {
      ghost var m1, f1, t1 := k.mem, k.free, t';
      var done;
      done, t' := AddPage(k, pagetable, a, Zeroes(PGSIZE), PTE_URWX, t1);
      if !done {
        Undo(k, pagetable, lo, a, m0, f0, t, m1, f1, t1, t', ZeroPages(a - lo));
        UnaffectedUser(m0, f0, t, k.mem, k.free, t', oldsz);
        return 0, false, t';
      }
      ExtendStep(m0, f0, t, m1, f1, t1, k.mem, k.free, t', lo, ZeroPages(a - lo), (Zeroes(PGSIZE), WithV(PTE_URWX)));
      assert ZeroPages(a + 1 - lo) == ZeroPages(a - lo) + [(Zeroes(PGSIZE), WithV(PTE_URWX))];
      a := a + 1;
    }
    ZeroedAll(m0, f0, t, k.mem, k.free, t', oldsz, newsz);
    ExtendedUser(m0, f0, t, k.mem, k.free, t', oldsz, ZeroPages(a - lo));
    r := newsz;
  }

  lemma UnaffectedUser(m0: Ram, f0: seq<nat>, t0: Tables, m1: Ram, f1: seq<nat>, t1: Tables, sz: nat)
    requires Unaffected(m0, f0, t0, m1, f1, t1, PageUp(sz))
    ensures SameForUser(m0, t0, m1, t1, sz)
  {
    hide SamePages, SameForUser, SameLeaves, Touched, Pool;
    SameUser(m0, t0, m1, t1, sz);
  }

  lemma ExtendedUser(m0: Ram, f0: seq<nat>, t0: Tables, m1: Ram, f1: seq<nat>, t1: Tables, sz: nat, want: seq<Want>)
    requires Extended(m0, f0, t0, m1, f1, t1, PageUp(sz), want)
    ensures SameForUser(m0, t0, m1, t1, sz)
  {
    hide SamePages, SameForUser, SameAbove, Touched, Pool, HoldsPage, Frames;
    SameUser(m0, t0, m1, t1, sz);
  }

  // ---- Copying ----------------------------------------------------------

  /** The parent's pages and tables lie outside the pool. */
  ghost predicate ParentOk(mem: Ram, tp: Tables, pool: set<nat>, n: nat)
    ensures ParentOk(mem, tp, pool, n) ==> TablesOk(mem, tp)
  {
    TablesOk(mem, tp) && Pages(tp) !! pool && Private(mem, pool, tp, 0, n)
  }

  /** The first n pages of the parent, with their flags. */
  ghost function PagesOf(mem: Ram, tp: Tables, n: nat): (w: seq<Want>)
    requires forall v: nat :: v < n ==> Frame(mem, tp, v) in mem
    ensures |w| == n
  {
    seq(n, v requires 0 <= v < n => (mem[Frame(mem, tp, v)], PteFlags(LeafPte(mem, tp, v))))
  }

  lemma ParentPages(mem: Ram, tp: Tables, pool: set<nat>, n: nat)
    requires ParentOk(mem, tp, pool, n)
    ensures forall v: nat :: v < n ==> Frame(mem, tp, v) in mem
  {
    forall v: nat | v < n ensures Frame(mem, tp, v) in mem { assert FrameOk(mem, pool, tp, v); }
  }

  /** What happens in the pool does not reach the parent. */
  lemma ParentKept(m0: Ram, m1: Ram, tp: Tables, pool: set<nat>, n: nat)
    requires ParentOk(m0, tp, pool, n) && Touched(m0, m1, pool) && n <= MAXVPN
    ensures ParentOk(m1, tp, pool, n) && SameLeaves(m0, tp, m1, tp) && SamePages(m0, tp, m1, tp, 0, n)
  {
    hide LeafPte;
    forall pl | pl in tp ensures tp[pl] in m1 && m1[tp[pl]] == m0[tp[pl]] { assert tp[pl] in Pages(tp); }
    TablesFrame(m0, m1, tp);
    OutsidePool(m0, tp, m1, tp, pool, n);
  }

  /** Page v of the parent, as uvmcopy reads it. */
  method ReadPage(k: Kmem, pagetable: nat, v: nat, ghost tp: Tables, ghost pool: set<nat>, ghost n: nat,
                  ghost t: Tables)
    returns (data: Page, flags: nat)
    requires Space(k, t, v) && ParentOk(k.mem, tp, pool, n) && tp[ROOT] == pagetable && v < n <= USERTOP
    requires Apart(k.free, tp)
    modifies k
    ensures unchanged(k)
    ensures Frame(k.mem, tp, v) in k.mem
    ensures data == k.mem[Frame(k.mem, tp, v)] && flags == PteFlags(LeafPte(k.mem, tp, v))
    ensures 1 < flags < 1024 && WithV(flags) == flags
  {
    hide LeafPte;
    assert FrameOk(k.mem, pool, tp, v);
    var table, pte := Load(k, pagetable, PGSIZE * v, tp);
    if table == 0 || !PteV(pte) { assert false; }
    LowBits(pte);
    data, flags := k.mem[PtePage(pte)], PteFlags(pte);
  }

  lemma LowBits(pte: nat)
    requires PteMapped(pte)
    ensures 1 < PteFlags(pte) < 1024 && WithV(PteFlags(pte)) == PteFlags(pte)
  {
    FlagParity(pte);
  }

  lemma FlagParity(pte: nat)
    ensures pte % 1024 % 2 == pte % 2
  {
  }

  /** Whether user code may use an entry is in its flags alone. */
  lemma UserFlags(p: nat, e: nat)
    ensures var c := MkPte(p, PteFlags(e)); PtePage(c) == p && (PteV(c) <==> PteV(e)) && (PteU(c) <==> PteU(e))
  {
    PteParts(p, e % 1024);
    PteParts(e / 1024, e % 1024);
    UserBit(p, e % 1024);
    UserBit(e / 1024, e % 1024);
    hide PteV, PteU, PtePage;
  }

  lemma UserBit(p: nat, f: nat)
    requires f < 1024
    ensures PteU(MkPte(p, f)) <==> PteU(f)
  {
    var q := 32 * p;
    assert 1024 * p + f == 32 * q + f;
    assert (32 * q + f) / 16 == 2 * q + f / 16;
  }

  lemma CopyForUser(m0: Ram, tp: Tables, m1: Ram, t: Tables, n: nat, va: nat)
    requires (forall v: nat :: v < n ==> Frame(m0, tp, v) in m0) && va / PGSIZE < n && va < MAXVA
    requires 0 !in m0 && 0 !in m1 && HoldsPage(m1, t, 0, PagesOf(m0, tp, n), va / PGSIZE)
    ensures UserMapped(m1, t, va) == UserMapped(m0, tp, va)
    ensures UserMapped(m0, tp, va) ==> UserByte(m1, t, va) == UserByte(m0, tp, va)
  {
    hide LeafPte, MkPte, PteV, PteU, PtePage, PteFlags;
    UserFlags(Frame(m1, t, va / PGSIZE), LeafPte(m0, tp, va / PGSIZE));
  }

  lemma CopiedUser(m0: Ram, f0: seq<nat>, t0: Tables, m1: Ram, f1: seq<nat>, t1: Tables, tp: Tables, sz: nat)
    requires (forall v: nat :: v < PageUp(sz) ==> Frame(m0, tp, v) in m0) && 0 !in m0 && 0 !in m1 && sz <= MAXVA
    requires Extended(m0, f0, t0, m1, f1, t1, 0, PagesOf(m0, tp, PageUp(sz)))
    ensures SameForUser(m0, tp, m1, t1, sz)
  {
    hide LeafPte, HoldsPage, PagesOf, UserMapped, UserByte, Frame;
    forall va: nat | va < sz
      ensures UserMapped(m1, t1, va) == UserMapped(m0, tp, va)
      ensures UserMapped(m0, tp, va) ==> UserByte(m1, t1, va) == UserByte(m0, tp, va)
    {
      assert HoldsPage(m1, t1, 0, PagesOf(m0, tp, PageUp(sz)), va / PGSIZE);
      CopyForUser(m0, tp, m1, t1, PageUp(sz), va);
    }
  }

  /** Copy sz bytes of user memory of `old` into the empty address space `new`. */
  method Uvmcopy(k: Kmem, parent: nat, child: nat, sz: nat, ghost tp: Tables, ghost t: Tables)
    returns (ok: bool, ghost t': Tables)
    requires Space(k, t, 0) && t[ROOT] == child && sz <= PGSIZE * USERTOP
    requires ParentOk(k.mem, tp, Pool(k.free, t), PageUp(sz)) && tp[ROOT] == parent
    modifies k
    ensures t'.Keys >= {ROOT} && t'[ROOT] == child
    ensures ParentOk(k.mem, tp, Pool(old(k.free), t), PageUp(sz))
    ensures SameLeaves(old(k.mem), tp, k.mem, tp) && SamePages(old(k.mem), tp, k.mem, tp, 0, PageUp(sz))
    ensures ok ==>
              && Space(k, t', PageUp(sz))
              && (forall v: nat :: v < PageUp(sz) ==> Frame(old(k.mem), tp, v) in old(k.mem))
              && Extended(old(k.mem), old(k.free), t, k.mem, k.free, t', 0, PagesOf(old(k.mem), tp, PageUp(sz)))
              && SameForUser(old(k.mem), tp, k.mem, t', sz)
    ensures !ok ==> Space(k, t', 0) && Unaffected(old(k.mem), old(k.free), t, k.mem, k.free, t', 0)
                    && |old(k.free)| < 3 * PageUp(sz)
  {
    hide TablesOk, LeafPte, Private, Pool, Apart, Clear, Unaffected, Extended, PageAdded, ParentOk, SamePages,
         SameLeaves, Frame, SameForUser;
    t' := t;
    ghost var m0, f0, n, pool := k.mem, k.free, PageUp(sz), Pool(k.free, t);
    ExtendNone(m0, f0, t, 0);
    ParentPages(m0, tp, pool, n);
    ParentSelf(m0, tp, pool, n);
    assert PagesOf(m0, tp, 0) == [];
    var i := 0;
    while PGSIZE * i < sz
      invariant 0 <= i <= n && |k.free| + 3 * i >= |f0|
      invariant Space(k, t', i) && t'[ROOT] == child
      invariant Extended(m0, f0, t, k.mem, k.free, t', 0, PagesOf(m0, tp, i))
      invariant ParentOk(k.mem, tp, pool, n) && SameLeaves(m0, tp, k.mem, tp) && SamePages(m0, tp, k.mem, tp, 0, n)
      decreases n - i
    {
      ghost var m1, f1, t1 := k.mem, k.free, t';
      FreeInPool(m0, f0, t, k.mem, k.free, t', 0, PagesOf(m0, tp, i), tp, n);
      var data, flags := ReadPage(k, parent, i, tp, pool, n, t');
      ReadSame(m0, m1, tp, n, i);
      ok, t' := AddPage(k, child, i, data, flags, t1);
      if !ok {
        Undo(k, child, 0, i, m0, f0, t, m1, f1, t1, t', PagesOf(m0, tp, i));
        UnaffectedTouch(m0, f0, t, k.mem, k.free, t', 0);
        ParentKept(m0, k.mem, tp, pool, n);
        return;
      }
      ExtendStep(m0, f0, t, m1, f1, t1, k.mem, k.free, t', 0, PagesOf(m0, tp, i), (data, flags));
      assert PagesOf(m0, tp, i + 1) == PagesOf(m0, tp, i) + [(data, flags)];
      ExtendedTouch(m0, f0, t, k.mem, k.free, t', 0, PagesOf(m0, tp, i + 1));
      ParentKept(m0, k.mem, tp, pool, n);
      i := i + 1;
    }
    CopiedUser(m0, f0, t, k.mem, k.free, t', tp, sz);
    ok := true;
  }

  lemma ParentSelf(mem: Ram, tp: Tables, pool: set<nat>, n: nat)
    requires ParentOk(mem, tp, pool, n) && n <= MAXVPN
    ensures SameLeaves(mem, tp, mem, tp) && SamePages(mem, tp, mem, tp, 0, n)
  {
    ParentKept(mem, mem, tp, pool, n);
  }

  lemma ReadSame(m0: Ram, m1: Ram, tp: Tables, n: nat, v: nat)
    requires SamePages(m0, tp, m1, tp, 0, n) && v < n && Frame(m1, tp, v) in m1
    ensures LeafPte(m1, tp, v) == LeafPte(m0, tp, v) && Frame(m1, tp, v) == Frame(m0, tp, v)
    ensures Frame(m0, tp, v) in m0 && m1[Frame(m1, tp, v)] == m0[Frame(m0, tp, v)]
  {
    assert SamePage(m0, tp, m1, tp, v);
  }

  lemma FreeInPool(m0: Ram, f0: seq<nat>, t0: Tables, m1: Ram, f1: seq<nat>, t1: Tables, lo: nat, want: seq<Want>,
                   tp: Tables, n: nat)
    requires Extended(m0, f0, t0, m1, f1, t1, lo, want) && ParentOk(m1, tp, Pool(f0, t0), n)
    ensures Apart(f1, tp)
  {
    forall p | p in f1 ensures p !in Pages(tp) { assert p in Elems(f1); assert p in Pool(f1, t1); }
  }

  lemma UnaffectedTouch(m0: Ram, f0: seq<nat>, t0: Tables, m1: Ram, f1: seq<nat>, t1: Tables, n: nat)
    requires Unaffected(m0, f0, t0, m1, f1, t1, n)
    ensures Touched(m0, m1, Pool(f0, t0))
  {
  }

  lemma ExtendedTouch(m0: Ram, f0: seq<nat>, t0: Tables, m1: Ram, f1: seq<nat>, t1: Tables, lo: nat, want: seq<Want>)
    requires Extended(m0, f0, t0, m1, f1, t1, lo, want)
    ensures Touched(m0, m1, Pool(f0, t0))
  {
  }

  /** The child's pages are none of the parent's. */
  lemma CopiesApart(m0: Ram, f0: seq<nat>, t0: Tables, m1: Ram, f1: seq<nat>, t1: Tables, want: seq<Want>, tp: Tables,
                    n: nat)
    requires Extended(m0, f0, t0, m1, f1, t1, 0, want) && ParentOk(m0, tp, Pool(f0, t0), n)
    ensures Frames(m1, t1, 0, |want|) !! Frames(m0, tp, 0, n) + Pages(tp)
  {
    hide LeafPte, TablesOk;
    forall v: nat | v < n ensures Frame(m0, tp, v) !in Pool(f0, t0) { assert FrameOk(m0, Pool(f0, t0), tp, v); }
  }
}
