/** Freeing whole address spaces: kernel/vm.c's freewalk and uvmfree. */
module FreeWalk {
  import opened Words
  import opened Counting
  import opened PageAllocator
  import opened PageTable
  import opened VirtualMemory
  import opened UserMemory

  /** The index of a's ancestor at level l. */
  function Above(a: Place, l: nat): (i: nat)
  {
    if l <= a.level then a.index else if l == a.level + 1 then a.index / 512 else a.index / 512 / 512
  }

  /** a is the table at pl or a table below it. */
  predicate Under(a: Place, pl: Place)
  {
    a.level <= pl.level && Above(a, pl.level) == pl.index
  }

  /** a lies below entries lo..hi of the table at pl. */
  predicate Between(a: Place, pl: Place, lo: nat, hi: nat)
  {
    a.level < pl.level && 512 * pl.index + lo <= Above(a, pl.level - 1) < 512 * pl.index + hi
  }

  lemma UnderChild(a: Place, pl: Place, i: nat)
    requires 0 < pl.level <= 2 && i < 512
    ensures Under(a, Child(pl, i)) <==> Between(a, pl, i, i + 1)
    ensures Under(a, pl) <==> a == pl || Between(a, pl, 0, 512)
  {
  }

  ghost function SubPages(t: Tables, pl: Place): (s: set<nat>)
  {
    set a | a in t && Under(a, pl) :: t[a]
  }

  ghost function PagesBetween(t: Tables, pl: Place, lo: nat, hi: nat): (s: set<nat>)
  {
    set a | a in t && Between(a, pl, lo, hi) :: t[a]
  }

  /** The table at a is intact, not free, and holds no leaf. */
  ghost predicate NodeOk(mem: Ram, free: seq<nat>, t: Tables, a: Place)
    requires a in t
  {
    && t[a] in mem && t[a] !in free
    && forall k: nat :: k < 512 ==>
         Quad(mem[t[a]], k) == if a.level > 0 && Child(a, k) in t then MkPte(t[Child(a, k)], 1) else 0
  }

  ghost predicate Live(mem: Ram, free: seq<nat>, t: Tables, pl: Place, lo: nat, hi: nat)
  {
    forall a {:trigger NodeOk(mem, free, t, a)} :: a in t && Between(a, pl, lo, hi) ==> NodeOk(mem, free, t, a)
  }

  ghost predicate Shape(t: Tables)
  {
    && (forall a {:trigger PlaceOk(t, a)} :: a in t ==> PlaceOk(t, a) && 0 < t[a] < PHYSTOP_PAGE)
    && (forall a, b {:trigger OnePlace(t, a, b)} :: a in t && b in t ==> OnePlace(t, a, b))
  }

  ghost predicate SubOk(mem: Ram, free: seq<nat>, t: Tables, pl: Place)
  {
    forall a {:trigger NodeOk(mem, free, t, a)} :: a in t && Under(a, pl) ==> NodeOk(mem, free, t, a)
  }

  lemma PagesStep(t: Tables, pl: Place, i: nat)
    requires 0 < pl.level <= 2 && i < 512
    ensures PagesBetween(t, pl, 0, i + 1) == PagesBetween(t, pl, 0, i) + SubPages(t, Child(pl, i))
  {
    hide Under, Child;
    forall a | a in t ensures Between(a, pl, 0, i + 1) <==> Between(a, pl, 0, i) || Under(a, Child(pl, i)) {
      UnderChild(a, pl, i);
    }
  }

  lemma PagesAll(t: Tables, pl: Place)
    requires pl in t && pl.level <= 2
    ensures SubPages(t, pl) == {t[pl]} + if pl.level > 0 then PagesBetween(t, pl, 0, 512) else {}
  {
    forall a | a in t ensures Under(a, pl) <==> a == pl || (pl.level > 0 && Between(a, pl, 0, 512)) {
      if pl.level > 0 { UnderChild(a, pl, 0); }
    }
    assert Under(pl, pl);
  }

  /** Without a table for entry i there is none below it. */
  lemma EmptyBelow(t: Tables, pl: Place, i: nat)
    requires Shape(t) && 0 < pl.level <= 2 && i < 512 && Child(pl, i) !in t
    ensures SubPages(t, Child(pl, i)) == {}
  {
    forall a | a in t ensures !Under(a, Child(pl, i)) {
      assert PlaceOk(t, a);
      if a.level < 2 && Parent(a) in t { assert PlaceOk(t, Parent(a)); }
    }
  }

  /** Freeing the tables below entry i leaves those below later entries alone. */
  lemma LiveRest(m1: Ram, f1: seq<nat>, m2: Ram, f2: seq<nat>, m3: Ram, t: Tables, pl: Place, i: nat)
    requires Shape(t) && pl in t && 0 < pl.level <= 2 && i < 512 && Live(m1, f1, t, pl, i, 512)
    requires Elems(f2) == Elems(f1) + SubPages(t, Child(pl, i)) && Touched(m1, m2, SubPages(t, Child(pl, i)))
    requires t[pl] in m2 && t[pl] in m3 && m3 == m2[t[pl] := m3[t[pl]]]
    ensures Live(m3, f2, t, pl, i + 1, 512)
  {
    hide Quad, MkPte;
    forall a | a in t && Between(a, pl, i + 1, 512) ensures NodeOk(m3, f2, t, a) {
      assert NodeOk(m1, f1, t, a);
      assert OnePlace(t, a, pl);
      assert t[a] !in SubPages(t, Child(pl, i)) by { NotBelow(t, pl, i, a); }
      assert t[a] !in Elems(f2);
    }
  }

  lemma NotBelow(t: Tables, pl: Place, i: nat, a: Place)
    requires Shape(t) && a in t && 0 < pl.level <= 2 && i < 512 && Between(a, pl, i + 1, 512)
    ensures t[a] !in SubPages(t, Child(pl, i))
  {
    forall b | b in t && Under(b, Child(pl, i)) ensures t[b] != t[a] {
      UnderChild(b, pl, i);
      assert OnePlace(t, a, b);
    }
  }

  /** Entries from i on are as NodeOk says; those before are zero. */
  ghost predicate EntriesLeft(page: Page, t: Tables, pl: Place, i: nat)
  {
    forall k: nat :: i <= k < 512 ==>
      Quad(page, k) == if pl.level > 0 && Child(pl, k) in t then MkPte(t[Child(pl, k)], 1) else 0
  }

  lemma EntryLeft(page: Page, t: Tables, pl: Place, i: nat)
    requires EntriesLeft(page, t, pl, i) && i < 512 && (forall a :: a in t ==> 0 < t[a] < PHYSTOP_PAGE)
    ensures PteV(Quad(page, i)) <==> pl.level > 0 && Child(pl, i) in t
    ensures PteV(Quad(page, i)) ==> PtePage(Quad(page, i)) == t[Child(pl, i)] && !PteLeaf(Quad(page, i))
    ensures EntriesLeft(SetQuad(page, i, 0), t, pl, i + 1) && EntriesLeft(page, t, pl, i + 1)
  {
    hide Quad, MkPte, PteV, PtePage, PteLeaf;
    TablePte(if pl.level > 0 && Child(pl, i) in t then t[Child(pl, i)] else 0);
  }

  /** The tables below entry i are part of those below pl. */
  lemma SubOfLive(mem: Ram, free: seq<nat>, t: Tables, pl: Place, i: nat)
    requires Live(mem, free, t, pl, i, 512) && 0 < pl.level <= 2 && i < 512
    ensures SubOk(mem, free, t, Child(pl, i))
  {
    forall a | a in t && Under(a, Child(pl, i)) ensures NodeOk(mem, free, t, a) {
      UnderChild(a, pl, i);
      assert Between(a, pl, i, 512);
    }
  }

  lemma PlNotBelow(t: Tables, pl: Place, i: nat)
    requires Shape(t) && pl in t && 0 < pl.level <= 2 && i < 512
    ensures t[pl] !in SubPages(t, Child(pl, i))
  {
    forall b | b in t && Under(b, Child(pl, i)) ensures t[b] != t[pl] { assert OnePlace(t, pl, b); }
  }

  /** Moving past an entry without a table below it. */
  lemma LiveSkip(mem: Ram, free: seq<nat>, t: Tables, pl: Place, i: nat)
    requires Live(mem, free, t, pl, i, 512)
    ensures Live(mem, free, t, pl, i + 1, 512)
  {
    forall a | a in t && Between(a, pl, i + 1, 512) ensures NodeOk(mem, free, t, a) { assert Between(a, pl, i, 512); }
  }

  lemma StartLive(mem: Ram, free: seq<nat>, t: Tables, pl: Place)
    requires SubOk(mem, free, t, pl) && pl in t && pl.level <= 2
    ensures t[pl] in mem && t[pl] !in free && EntriesLeft(mem[t[pl]], t, pl, 0)
    ensures Live(mem, free, t, pl, 0, 512) && PagesBetween(t, pl, 0, 0) == {}
  {
    assert NodeOk(mem, free, t, pl);
    forall a | a in t && Between(a, pl, 0, 512) ensures NodeOk(mem, free, t, a) { UnderChild(a, pl, 0); }
  }

  /** The invariant of freewalk's loop: the tables below the first i entries have been freed. */
  ghost predicate Progress(k: Kmem, m0: Ram, f0: seq<nat>, t: Tables, pl: Place, i: nat)
    requires pl in t
    reads k
  {
    && k.Valid() && t[pl] in k.mem && t[pl] !in k.free
    && EntriesLeft(k.mem[t[pl]], t, pl, i) && Live(k.mem, k.free, t, pl, i, 512)
    && Elems(k.free) == Elems(f0) + PagesBetween(t, pl, 0, i)
    && Touched(m0, k.mem, {t[pl]} + PagesBetween(t, pl, 0, i))
  }

  /** One entry of freewalk: free what is below it and clear it. */
  method FreeBelow(k: Kmem, table: nat, i: nat, ghost t: Tables, ghost pl: Place, ghost m0: Ram, ghost f0: seq<nat>)
    requires Shape(t) && pl in t && t[pl] == table && pl.level <= 2 && i < 512 && Progress(k, m0, f0, t, pl, i)
    modifies k
    ensures Progress(k, m0, f0, t, pl, i + 1)
    decreases pl.level, 0
  {
    hide Quad, Shape, Live, Touched, EntriesLeft, SubPages, PagesBetween, PteV, PtePage, PteLeaf, Child;
    var pte := Quad(k.mem[table], i);
    InShape(t);
    EntryLeft(k.mem[table], t, pl, i);
    ghost var m1, f1 := k.mem, k.free;
    if PteV(pte) && !PteLeaf(pte) {
      ghost var c := Child(pl, i);
      SubOfLive(k.mem, k.free, t, pl, i);
      PlNotBelow(t, pl, i);
      ChildLevel(pl, i);
      Freewalk(k, PtePage(pte), t, c);
      ghost var m2 := k.mem;
      TouchedPage(m1, m2, SubPages(t, c), table);
      assert table !in Elems(k.free);
      ClearEntry(k, table, i);
      LiveRest(m1, f1, m2, k.free, k.mem, t, pl, i);
      PagesStep(t, pl, i);
      TouchedSteps(m0, m1, m2, k.mem, table, PagesBetween(t, pl, 0, i), SubPages(t, c));
    } else if PteV(pte) {
      assert false;
    } else {
      LiveSkip(k.mem, k.free, t, pl, i);
      if pl.level > 0 {
        EmptyBelow(t, pl, i);
        PagesStep(t, pl, i);
        assert PagesBetween(t, pl, 0, i) + {} == PagesBetween(t, pl, 0, i);
      } else {
        NoneBetween(t, pl, i);
      }
    }
  }

  /** Free the table at pl and all tables below it. */
  method Freewalk(k: Kmem, table: nat, ghost t: Tables, ghost pl: Place)
    requires k.Valid() && Shape(t) && pl in t && t[pl] == table && pl.level <= 2 && SubOk(k.mem, k.free, t, pl)
    modifies k
    ensures k.Valid() && Elems(k.free) == Elems(old(k.free)) + SubPages(t, pl)
    ensures Touched(old(k.mem), k.mem, SubPages(t, pl))
    decreases pl.level, 1
  {
    hide Quad, Shape, Live, Touched, EntriesLeft, SubPages, PagesBetween, SubOk;
    StartLive(k.mem, k.free, t, pl);
    NoChange(k.mem, t, {t[pl]} + PagesBetween(t, pl, 0, 0));
    var i := 0;
    while i < 512
      invariant 0 <= i <= 512 && Progress(k, old(k.mem), old(k.free), t, pl, i)
    {
      FreeBelow(k, table, i, t, pl, old(k.mem), old(k.free));
      i := i + 1;
    }
    ghost var m1, f1 := k.mem, k.free;
    k.Kfree(table);
    ElemsPush(table, f1);
    PagesAll(t, pl);
    if pl.level == 0 { NoneBetween(t, pl, 511); }
    FreedTouch(m1, k.mem, table);
    TouchedMore(old(k.mem), m1, k.mem, {t[pl]} + PagesBetween(t, pl, 0, 512), {table}, SubPages(t, pl));
  }

  /** Entry i of the table is cleared. */
  method ClearEntry(k: Kmem, table: nat, i: nat)
    requires k.Valid() && table in k.mem && table !in k.free && i < 512
    modifies k
    ensures k.Valid() && k.free == old(k.free) && k.mem == old(k.mem)[table := SetQuad(old(k.mem)[table], i, 0)]
  {
    hide Quad, Chained;
    var page: Page := SetQuad(k.mem[table], i, 0);
    ChainFrame(k.mem, k.mem[table := page], k.free);
    k.mem := k.mem[table := page];
  }

  lemma InShape(t: Tables)
    requires Shape(t)
    ensures forall a :: a in t ==> 0 < t[a] < PHYSTOP_PAGE
  {
    forall a | a in t ensures 0 < t[a] < PHYSTOP_PAGE { assert PlaceOk(t, a); }
  }

  lemma ChildLevel(pl: Place, i: nat)
    requires pl.level > 0
    ensures Child(pl, i).level == pl.level - 1
  {
  }

  lemma NoneBetween(t: Tables, pl: Place, i: nat)
    requires pl.level == 0
    ensures PagesBetween(t, pl, 0, i) == {} && PagesBetween(t, pl, 0, i + 1) == {}
  {
  }

  lemma TouchedPage(m1: Ram, m2: Ram, s: set<nat>, p: nat)
    requires Touched(m1, m2, s) && p in m1 && p !in s
    ensures p in m2 && m2[p] == m1[p]
  {
  }

  lemma TouchedSteps(m0: Ram, m1: Ram, m2: Ram, m3: Ram, p: nat, a: set<nat>, b: set<nat>)
    requires Touched(m0, m1, {p} + a) && Touched(m1, m2, b) && p in m2 && p in m3 && m3 == m2[p := m3[p]]
    ensures Touched(m0, m3, {p} + (a + b))
  {
  }

  // ---- The whole address space ------------------------------------------

  /** Every page that an address space with n user pages owns. */
  ghost function Owned(mem: Ram, t: Tables, n: nat): (s: set<nat>)
  {
    Pages(t) + Frames(mem, t, 0, n)
  }

  lemma AllUnder(mem: Ram, free: seq<nat>, t: Tables)
    requires TablesOk(mem, t) && Apart(free, t) && Clear(mem, t, 0, MAXVPN)
    ensures Shape(t) && SubOk(mem, free, t, ROOT) && SubPages(t, ROOT) == Pages(t)
  {
    hide Quad;
    forall a | a in t ensures PlaceOk(t, a) && Under(a, ROOT) && NodeOk(mem, free, t, a) {
      assert PlaceOk(t, a) && t[a] in Pages(t);
      forall k: nat | k < 512
        ensures Quad(mem[t[a]], k) == if a.level > 0 && Child(a, k) in t then MkPte(t[Child(a, k)], 1) else 0
      {
        assert EntryOk(mem, t, a, k);
        if a.level == 0 {
          var v := 512 * a.index + k;
          assert a == Place(0, v / 512) && v % 512 == k && v < MAXVPN;
          assert LeafPte(mem, t, v) == 0;
        }
      }
    }
  }

  /** Free the user memory and the page table: everything the address space owned is free. */
  method Uvmfree(k: Kmem, pagetable: nat, sz: nat, ghost t: Tables)
    requires Space(k, t, PageUp(sz)) && t[ROOT] == pagetable
    requires Clear(k.mem, t, PageUp(sz), MAXVPN)
    modifies k
    ensures k.Valid() && Elems(k.free) == Elems(old(k.free)) + Owned(old(k.mem), t, PageUp(sz))
    ensures Touched(old(k.mem), k.mem, Owned(old(k.mem), t, PageUp(sz)))
  {
    hide TablesOk, LeafPte, Private, Touched, Clear, Cleared, Shape, SubOk, SubPages;
    NoChange(k.mem, t, Pages(t));
    ghost var n := PageUp(sz);
    if sz > 0 {
      UnmapAndFree(k, pagetable, 0, PageUp(sz), t);
      AllCleared(old(k.mem), k.mem, t, n);
    }
    ghost var m1 := k.mem;
    AllUnder(k.mem, k.free, t);
    Freewalk(k, pagetable, t, ROOT);
    TouchedMore(old(k.mem), m1, k.mem, if sz > 0 then Pages(t) + Frames(old(k.mem), t, 0, n) else Pages(t), Pages(t),
                Owned(old(k.mem), t, n));
  }

  lemma AllCleared(m0: Ram, m1: Ram, t: Tables, n: nat)
    requires Cleared(m0, m1, t, 0, n) && Clear(m0, t, n, MAXVPN)
    ensures Clear(m1, t, 0, MAXVPN)
  {
  }

  /** Drop the trampoline and trapframe mappings, then free the rest. */
  method FreePagetable(k: Kmem, pagetable: nat, sz: nat, ghost t: Tables)
    requires Space(k, t, PageUp(sz)) && t[ROOT] == pagetable
    requires forall v: nat :: USERTOP <= v < MAXVPN ==> PteMapped(LeafPte(k.mem, t, v))
    modifies k
    ensures k.Valid() && Elems(k.free) == Elems(old(k.free)) + Owned(old(k.mem), t, PageUp(sz))
    ensures Touched(old(k.mem), k.mem, Owned(old(k.mem), t, PageUp(sz)))
  {
    hide TablesOk, LeafPte, Private, Touched, Pool, Apart;
    ghost var n, m0 := PageUp(sz), k.mem;
    UnmapOnly(k, pagetable, MAXVPN - 1, MAXVPN, t);
    ghost var m1 := k.mem;
    UnmapOnly(k, pagetable, USERTOP, USERTOP + 1, t);
    TouchedTwice(m0, m1, k.mem, Pages(t));
    TopDropped(m0, m1, k.mem, k.free, t, n);
    ghost var m2 := k.mem;
    Uvmfree(k, pagetable, sz, t);
    TouchedMore(m0, m2, k.mem, Pages(t), Owned(m0, t, n), Owned(m0, t, n));
  }

  lemma TopDropped(m0: Ram, m1: Ram, m2: Ram, free: seq<nat>, t: Tables, n: nat)
    requires Private(m0, Pool(free, t), t, 0, n) && Clear(m0, t, n, USERTOP) && n <= USERTOP
    requires Cleared(m0, m1, t, MAXVPN - 1, MAXVPN) && Cleared(m1, m2, t, USERTOP, USERTOP + 1)
    requires Touched(m0, m2, Pages(t))
    ensures Private(m2, Pool(free, t), t, 0, n) && Clear(m2, t, n, MAXVPN) && Owned(m2, t, n) == Owned(m0, t, n)
  {
    hide LeafPte;
    PoolHas(free, t);
    assert Touched(m0, m2, Pool(free, t));
    OutsidePool(m0, t, m2, t, Pool(free, t), n);
    FramesSame(m0, t, m2, t, 0, n);
  }
}
