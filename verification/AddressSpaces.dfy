/** All address spaces of the machine together: every page of RAM is free, in use by
    the kernel, or owned by exactly one address space, whatever sequence of operations
    of kernel/vm.c has gone by. */
module AddressSpaces {
  import opened Words
  import opened Counting
  import opened PageAllocator
  import opened PageTable
  import opened VirtualMemory
  import opened UserMemory
  import opened FreeWalk
  import opened CopyUser

  /** An address space with sz bytes of user memory; `mapped` says whether the trampoline
      and a trapframe are mapped at its top. */
  datatype AddressSpace = AddressSpace(t: Tables, sz: nat, mapped: bool)

  type Spaces = map<nat, AddressSpace>  // by the page of the root table

  ghost predicate TopOk(mem: Ram, t: Tables, mapped: bool)
  {
    forall v: nat :: USERTOP <= v < MAXVPN ==>
      if mapped then PteMapped(LeafPte(mem, t, v)) && !PteU(LeafPte(mem, t, v)) else LeafPte(mem, t, v) == 0
  }

  ghost predicate SpaceOk(mem: Ram, free: seq<nat>, s: AddressSpace)
    ensures SpaceOk(mem, free, s) ==> ROOT in s.t
  {
    var n := PageUp(s.sz);
    && TablesOk(mem, s.t) && Apart(free, s.t) && n <= USERTOP
    && Private(mem, Pool(free, s.t), s.t, 0, n) && Clear(mem, s.t, n, USERTOP) && TopOk(mem, s.t, s.mapped)
  }

  ghost function OwnedBy(mem: Ram, s: AddressSpace): (o: set<nat>)
  {
    Owned(mem, s.t, PageUp(s.sz))
  }

  /** The pages of all address spaces. */
  ghost function InUse(mem: Ram, spaces: Spaces): (u: set<nat>)
    ensures forall i :: i in spaces ==> OwnedBy(mem, spaces[i]) <= u
    ensures forall p :: p in u ==> exists i :: i in spaces && p in OwnedBy(mem, spaces[i])
  {
    set i, p | i in spaces && p in OwnedBy(mem, spaces[i]) :: p
  }

  ghost predicate MemberOk(mem: Ram, free: seq<nat>, kernel: set<nat>, spaces: Spaces, i: nat)
    requires i in spaces
  {
    SpaceOk(mem, free, spaces[i]) && spaces[i].t[ROOT] == i && OwnedBy(mem, spaces[i]) !! kernel
  }

  ghost predicate Disjoint(mem: Ram, spaces: Spaces, i: nat, j: nat)
    requires i in spaces && j in spaces
  {
    i != j ==> OwnedBy(mem, spaces[i]) !! OwnedBy(mem, spaces[j])
  }

  /** Every page is free, the kernel's, or owned by one address space. */
  ghost predicate SystemOk(mem: Ram, free: seq<nat>, kernel: set<nat>, spaces: Spaces)
  {
    && (forall i :: i in spaces ==> MemberOk(mem, free, kernel, spaces, i))
    && (forall i, j :: i in spaces && j in spaces ==> Disjoint(mem, spaces, i, j))
    && kernel !! Elems(free) && kernel <= mem.Keys
    && Elems(free) + kernel + InUse(mem, spaces) == mem.Keys
  }

  /** An address space reads as it did: same entries, same bytes. */
  ghost predicate SameSpace(m0: Ram, m1: Ram, s: AddressSpace)
  {
    SameLeaves(m0, s.t, m1, s.t) && SamePages(m0, s.t, m1, s.t, 0, PageUp(s.sz))
  }

  // ---- Moving pages between the three parties ---------------------------

  lemma OwnedNotFree(mem: Ram, free: seq<nat>, s: AddressSpace)
    requires SpaceOk(mem, free, s)
    ensures OwnedBy(mem, s) !! Elems(free) && OwnedBy(mem, s) <= mem.Keys
  {
    hide LeafPte;
    forall p | p in OwnedBy(mem, s) ensures p !in Elems(free) && p in mem {
      if p !in Pages(s.t) {
        var v: nat :| v < PageUp(s.sz) && Frame(mem, s.t, v) == p;
        assert FrameOk(mem, Pool(free, s.t), s.t, v);
      }
    }
  }

  /** What an address space owns, seen as pages of the kernel. */
  lemma Withdraw(mem: Ram, free: seq<nat>, kernel: set<nat>, spaces: Spaces, i: nat)
    requires SystemOk(mem, free, kernel, spaces) && i in spaces
    ensures SystemOk(mem, free, kernel + OwnedBy(mem, spaces[i]), spaces - {i})
    ensures OwnedBy(mem, spaces[i]) !! kernel && OwnedBy(mem, spaces[i]) !! Elems(free)
  {
    hide SpaceOk, OwnedBy;
    var rest, kernel' := spaces - {i}, kernel + OwnedBy(mem, spaces[i]);
    assert MemberOk(mem, free, kernel, spaces, i);
    OwnedNotFree(mem, free, spaces[i]);
    forall j | j in rest ensures MemberOk(mem, free, kernel', rest, j) {
      assert MemberOk(mem, free, kernel, spaces, j);
      assert Disjoint(mem, spaces, i, j);
    }
    forall a, b | a in rest && b in rest ensures Disjoint(mem, rest, a, b) { assert Disjoint(mem, spaces, a, b); }
    forall p ensures p in kernel' + InUse(mem, rest) <==> p in kernel + InUse(mem, spaces) {
      if p in InUse(mem, spaces) {
        var j :| j in spaces && p in OwnedBy(mem, spaces[j]);
        if j != i { assert j in rest && p in OwnedBy(mem, rest[j]); }
      }
      if p in InUse(mem, rest) {
        var j :| j in rest && p in OwnedBy(mem, rest[j]);
        assert j in spaces && p in OwnedBy(mem, spaces[j]);
      }
    }
    SameSum(Elems(free), kernel', InUse(mem, rest), kernel, InUse(mem, spaces));
  }

  lemma SameSum(f: set<nat>, a: set<nat>, b: set<nat>, c: set<nat>, d: set<nat>)
    requires forall p :: p in a + b <==> p in c + d
    ensures f + a + b == f + c + d
  {
    assert a + b == c + d;
    assert f + a + b == f + (a + b);
    assert f + c + d == f + (c + d);
  }

  /** And back: an address space takes its pages from those of the kernel. */
  lemma Deposit(mem: Ram, free: seq<nat>, kernel: set<nat>, spaces: Spaces, i: nat, s: AddressSpace)
    requires SystemOk(mem, free, kernel, spaces) && i !in spaces
    requires SpaceOk(mem, free, s) && s.t[ROOT] == i && OwnedBy(mem, s) <= kernel
    ensures SystemOk(mem, free, kernel - OwnedBy(mem, s), spaces[i := s])
  {
    hide SpaceOk, OwnedBy;
    var more, kernel' := spaces[i := s], kernel - OwnedBy(mem, s);
    forall j | j in more ensures MemberOk(mem, free, kernel', more, j) {
      if j != i { assert MemberOk(mem, free, kernel, spaces, j); }
    }
    forall a, b | a in more && b in more ensures Disjoint(mem, more, a, b) {
      if a in spaces { assert MemberOk(mem, free, kernel, spaces, a); }
      if b in spaces { assert MemberOk(mem, free, kernel, spaces, b); }
      if a in spaces && b in spaces { assert Disjoint(mem, spaces, a, b); }
    }
    forall p ensures p in kernel' + InUse(mem, more) <==> p in kernel + InUse(mem, spaces) {
      if p in InUse(mem, spaces) {
        var j :| j in spaces && p in OwnedBy(mem, spaces[j]);
        assert j in more && p in OwnedBy(mem, more[j]);
      }
      if p in OwnedBy(mem, s) { assert p in OwnedBy(mem, more[i]); }
      if p in InUse(mem, more) {
        var j :| j in more && p in OwnedBy(mem, more[j]);
        if j != i { assert p in OwnedBy(mem, spaces[j]); }
      }
    }
    SameSum(Elems(free), kernel', InUse(mem, more), kernel, InUse(mem, spaces));
  }

  /** An address space does not notice what happens to pages that are not its own. */
  lemma Bystander(m0: Ram, f0: seq<nat>, m1: Ram, f1: seq<nat>, s: AddressSpace, area: set<nat>)
    requires SpaceOk(m0, f0, s) && Touched(m0, m1, area) && OwnedBy(m0, s) !! area && Elems(f1) <= area
    ensures SpaceOk(m1, f1, s) && SameSpace(m0, m1, s) && OwnedBy(m1, s) == OwnedBy(m0, s)
  {
    hide LeafPte, TablesOk, PteV, PteU;
    var n := PageUp(s.sz);
    forall pl | pl in s.t ensures s.t[pl] in m1 && m1[s.t[pl]] == m0[s.t[pl]] {
      assert s.t[pl] in Pages(s.t) && s.t[pl] in OwnedBy(m0, s);
    }
    TablesFrame(m0, m1, s.t);
    forall p | p in f1 ensures p !in Pages(s.t) { assert p in Elems(f1); }
    forall v: nat | v < n ensures FrameOk(m1, Pool(f1, s.t), s.t, v) && SamePage(m0, s.t, m1, s.t, v) {
      assert FrameOk(m0, Pool(f0, s.t), s.t, v);
      assert Frame(m0, s.t, v) in OwnedBy(m0, s);
    }
    forall v: nat, w: nat | v < w < n ensures Frame(m1, s.t, v) != Frame(m1, s.t, w) {
      assert Frame(m0, s.t, v) != Frame(m0, s.t, w);
    }
    assert Private(m1, Pool(f1, s.t), s.t, 0, n);
    FramesSame(m0, s.t, m1, s.t, 0, n);
  }

  /** Some pages of the kernel and the free ones are dealt out anew; nobody else notices. */
  lemma Dealt(m0: Ram, f0: seq<nat>, kernel: set<nat>, spaces: Spaces, m1: Ram, f1: seq<nat>, gone: set<nat>,
              got: set<nat>)
    requires SystemOk(m0, f0, kernel, spaces) && gone <= kernel && Touched(m0, m1, Elems(f0) + gone)
    requires Elems(f1) + got == Elems(f0) + gone && got !! Elems(f1)
    ensures SystemOk(m1, f1, kernel - gone + got, spaces)
    ensures forall i :: i in spaces ==> SameSpace(m0, m1, spaces[i])
  {
    hide SpaceOk, OwnedBy, SameSpace;
    var area, kernel' := Elems(f0) + gone, kernel - gone + got;
    forall i | i in spaces
      ensures MemberOk(m1, f1, kernel', spaces, i) && OwnedBy(m1, spaces[i]) == OwnedBy(m0, spaces[i])
      ensures SameSpace(m0, m1, spaces[i])
    {
      assert MemberOk(m0, f0, kernel, spaces, i);
      OwnedNotFree(m0, f0, spaces[i]);
      Bystander(m0, f0, m1, f1, spaces[i], area);
    }
    forall i, j | i in spaces && j in spaces ensures Disjoint(m1, spaces, i, j) { assert Disjoint(m0, spaces, i, j); }
    SameUse(m0, m1, spaces);
    FreeInRam(m0, f0, kernel, spaces);
  }

  lemma FreeInRam(mem: Ram, free: seq<nat>, kernel: set<nat>, spaces: Spaces)
    requires SystemOk(mem, free, kernel, spaces)
    ensures Elems(free) <= mem.Keys
  {
    assert forall p :: p in Elems(free) ==> p in Elems(free) + kernel + InUse(mem, spaces);
  }

  lemma SameUse(m0: Ram, m1: Ram, spaces: Spaces)
    requires forall i :: i in spaces ==> OwnedBy(m1, spaces[i]) == OwnedBy(m0, spaces[i])
    ensures InUse(m1, spaces) == InUse(m0, spaces)
  {
    hide OwnedBy;
  }

  /** A page has exactly one use. */
  lemma ExactlyOneUse(mem: Ram, free: seq<nat>, kernel: set<nat>, spaces: Spaces, p: nat)
    requires SystemOk(mem, free, kernel, spaces) && p in mem
    ensures p in free <==> p !in kernel && forall i :: i in spaces ==> p !in OwnedBy(mem, spaces[i])
    ensures p in kernel ==> forall i :: i in spaces ==> p !in OwnedBy(mem, spaces[i])
    ensures forall i, j ::
              i in spaces && j in spaces && p in OwnedBy(mem, spaces[i]) && p in OwnedBy(mem, spaces[j]) ==> i == j
  {
    hide OwnedBy, SpaceOk;
    assert p in Elems(free) + kernel + InUse(mem, spaces);
    forall i | i in spaces ensures OwnedBy(mem, spaces[i]) !! kernel + Elems(free) {
      assert MemberOk(mem, free, kernel, spaces, i);
      OwnedNotFree(mem, free, spaces[i]);
    }
    assert p in free <==> p in Elems(free);
    forall i, j | i in spaces && j in spaces && i != j ensures OwnedBy(mem, spaces[i]) !! OwnedBy(mem, spaces[j]) {
      assert Disjoint(mem, spaces, i, j);
    }
  }

  // ---- Building a process's page table ----------------------------------

  const TRAMPOLINE: nat := MAXVPN - 1  // its virtual page; TRAPFRAME is USERTOP
  const PTE_RX: nat := 0xA
  const PTE_RW: nat := 0x6

  /** The trampoline and the trapframe are mapped, both closed to user code. */
  ghost predicate TopMapped(mem: Ram, t: Tables, trampoline: nat, trapframe: nat)
  {
    && LeafPte(mem, t, TRAMPOLINE) == MkPte(trampoline, WithV(PTE_RX))
    && LeafPte(mem, t, USERTOP) == MkPte(trapframe, WithV(PTE_RW))
  }

  lemma TopIsOk(mem: Ram, t: Tables, trampoline: nat, trapframe: nat)
    requires TopMapped(mem, t, trampoline, trapframe)
    ensures TopOk(mem, t, true)
  {
    hide LeafPte, MkPte, PteMapped, PteU;
    Supervisor(trampoline, 0xB);
    Supervisor(trapframe, 0x7);
  }

  /** An entry with flag bits among V, R, W and X only. */
  lemma Supervisor(p: nat, flags: nat)
    requires 1 < flags < 16 && flags % 2 == 1
    ensures PteMapped(MkPte(p, flags)) && !PteU(MkPte(p, flags))
  {
    PteParts(p, flags);
    assert (1024 * p + flags) / 16 == 2 * (32 * p);
  }

  lemma RootPool(free: seq<nat>)
    requires free != []
    ensures Pool(free[1..], map[ROOT := free[0]]) == Elems(free) && {free[0]} <= Elems(free)
  {
    ElemsPush(free[0], free[1..]);
    assert free == [free[0]] + free[1..];
    assert Pages(map[ROOT := free[0]]) == {free[0]} by { assert map[ROOT := free[0]][ROOT] == free[0]; }
  }

  /** Virtual page v is all that a one-page mapping at v covers. */
  lemma OneFree(mem: Ram, t: Tables, v: nat)
    requires v < MAXVPN && Clear(mem, t, v, v + 1)
    ensures PGSIZE * v / PGSIZE == v && (PGSIZE * v + PGSIZE - 1) / PGSIZE == v
    ensures forall w: nat :: PGSIZE * v / PGSIZE <= w <= (PGSIZE * v + PGSIZE - 1) / PGSIZE ==> LeafPte(mem, t, w) == 0
  {
  }

  lemma ClearPart(mem: Ram, t: Tables, lo: nat, hi: nat, v: nat)
    requires Clear(mem, t, lo, hi) && lo <= v < hi
    ensures Clear(mem, t, v, v + 1)
  {
  }

  lemma MappedNone(m0: Ram, t0: Tables, m1: Ram, t1: Tables, first: nat, p: nat, flags: nat)
    requires MappedRange(m0, t0, m1, t1, first, 0, p, flags) && Clear(m0, t0, 0, MAXVPN)
    ensures Clear(m1, t1, 0, MAXVPN)
  {
    hide LeafPte;
  }

  lemma TrampolineMapped(m1: Ram, t1: Tables, m2: Ram, t2: Tables, trampoline: nat)
    requires MappedRange(m1, t1, m2, t2, TRAMPOLINE, 1, trampoline, WithV(PTE_RX)) && Clear(m1, t1, 0, MAXVPN)
    ensures LeafPte(m2, t2, TRAMPOLINE) == MkPte(trampoline, WithV(PTE_RX)) && Clear(m2, t2, 0, TRAMPOLINE)
  {
    hide LeafPte, MkPte, WithV;
  }

  /** The trapframe could not be mapped. */
  lemma TrampolineOnly(m2: Ram, t2: Tables, m3: Ram, t3: Tables, trampoline: nat, trapframe: nat)
    requires LeafPte(m2, t2, TRAMPOLINE) == MkPte(trampoline, WithV(PTE_RX)) && Clear(m2, t2, 0, TRAMPOLINE)
    requires MappedRange(m2, t2, m3, t3, USERTOP, 0, trapframe, WithV(PTE_RW))
    ensures PteMapped(LeafPte(m3, t3, TRAMPOLINE)) && Clear(m3, t3, 0, TRAMPOLINE)
  {
    hide LeafPte;
    assert LeafPte(m3, t3, TRAMPOLINE) == LeafPte(m2, t2, TRAMPOLINE);
  }

  lemma TrampolineGone(m3: Ram, m4: Ram, t: Tables)
    requires Clear(m3, t, 0, TRAMPOLINE) && Cleared(m3, m4, t, TRAMPOLINE, TRAMPOLINE + 1)
    ensures Clear(m4, t, 0, MAXVPN)
  {
    hide LeafPte;
  }

  lemma BothMapped(m2: Ram, t2: Tables, m3: Ram, t3: Tables, free: seq<nat>, trampoline: nat, trapframe: nat)
    requires LeafPte(m2, t2, TRAMPOLINE) == MkPte(trampoline, WithV(PTE_RX)) && Clear(m2, t2, 0, TRAMPOLINE)
    requires MappedRange(m2, t2, m3, t3, USERTOP, 1, trapframe, WithV(PTE_RW))
    ensures TopMapped(m3, t3, trampoline, trapframe) && Clear(m3, t3, 0, USERTOP) &&
              Private(m3, Pool(free, t3), t3, 0, 0)
  {
    hide LeafPte, MkPte, WithV;
  }

  /** uvmfree of a page table that maps nothing. */
  method FreeEmpty(k: Kmem, pagetable: nat, ghost t: Tables)
    requires Ready(k, t) && t[ROOT] == pagetable && Clear(k.mem, t, 0, MAXVPN)
    modifies k
    ensures k.Valid() && Elems(k.free) == Pool(old(k.free), t) && Touched(old(k.mem), k.mem, Pool(old(k.free), t))
  {
    hide TablesOk, LeafPte, Touched, Apart;
    assert PageUp(0) == 0;
    assert Owned(k.mem, t, 0) == Pages(t);
    PoolHas(k.free, t);
    ghost var m0, pool := k.mem, Pool(k.free, t);
    NoChange(m0, t, pool);
    Uvmfree(k, pagetable, 0, t);
    TouchedMore(m0, m0, k.mem, pool, Pages(t), pool);
  }

  /** A page table without user memory but with the trampoline and the trapframe; on failure
      all pages are free again. */
  method ProcPagetable(k: Kmem, trampoline: nat, trapframe: nat) returns (pagetable: nat, ghost t: Tables)
    requires k.Valid() && trampoline <= PHYSTOP_PAGE && trapframe <= PHYSTOP_PAGE
    modifies k
    ensures k.Valid() && Touched(old(k.mem), k.mem, Elems(old(k.free)))
    ensures pagetable == 0 ==> Elems(k.free) == Elems(old(k.free)) && |old(k.free)| <= 4
    ensures pagetable != 0 ==>
              && Space(k, t, 0) && t[ROOT] == pagetable && TopMapped(k.mem, t, trampoline, trapframe)
              && Pool(k.free, t) == Elems(old(k.free))
  {
    hide TablesOk, LeafPte, Private, Touched, Pool, Apart, Clear, MappedRange, MkPte, WithV, Frames, Cleared;
    ghost var m0, f0, n := k.mem, k.free, 0;
    NoChange(m0, map[], Elems(f0));
    pagetable, t := Uvmcreate(k);
    if pagetable == 0 { return; }
    ghost var m1, t1 := k.mem, t;
    RootPool(f0);
    TouchedMore(m0, m0, m1, Elems(f0), {pagetable}, Elems(f0));
    var ok;
    ClearPart(m1, t1, 0, MAXVPN, TRAMPOLINE);
    OneFree(m1, t1, TRAMPOLINE);
    ok, n, t := Mappages(k, pagetable, PGSIZE * TRAMPOLINE, PGSIZE, trampoline, PTE_RX, t1);
    ghost var m2, t2 := k.mem, t;
    TouchedTwice(m0, m1, m2, Elems(f0));
    if !ok {
      MappedNone(m1, t1, m2, t2, TRAMPOLINE, trampoline, WithV(PTE_RX));
      FreeEmpty(k, pagetable, t2);
      TouchedTwice(m0, m2, k.mem, Elems(f0));
      return 0, t2;
    }
    TrampolineMapped(m1, t1, m2, t2, trampoline);
    ClearPart(m2, t2, 0, TRAMPOLINE, USERTOP);
    OneFree(m2, t2, USERTOP);
    ok, n, t := Mappages(k, pagetable, PGSIZE * USERTOP, PGSIZE, trapframe, PTE_RW, t2);
    ghost var m3, t3 := k.mem, t;
    TouchedTwice(m0, m2, m3, Elems(f0));
    if !ok {
      TrampolineOnly(m2, t2, m3, t3, trampoline, trapframe);
      UnmapOnly(k, pagetable, TRAMPOLINE, TRAMPOLINE + 1, t3);
      TrampolineGone(m3, k.mem, t3);
      PoolHas(k.free, t3);
      TouchedMore(m0, m3, k.mem, Elems(f0), Pages(t3), Elems(f0));
      ghost var m4 := k.mem;
      FreeEmpty(k, pagetable, t3);
      TouchedTwice(m0, m4, k.mem, Elems(f0));
      return 0, t3;
    }
    BothMapped(m2, t2, m3, t3, k.free, trampoline, trapframe);
  }

  // ---- What each operation does to the system ---------------------------

  /** All address spaces outside `changed` are there as before and read as before. */
  ghost predicate Others(m0: Ram, spaces: Spaces, m1: Ram, spaces': Spaces, changed: set<nat>)
  {
    forall j :: j in spaces && j !in changed ==> KeptSpace(m0, spaces, m1, spaces', j)
  }

  ghost predicate KeptSpace(m0: Ram, spaces: Spaces, m1: Ram, spaces': Spaces, j: nat)
    requires j in spaces
  {
    j in spaces' && spaces'[j] == spaces[j] && SameSpace(m0, m1, spaces[j])
  }

  lemma KeptTwice(m0: Ram, s0: Spaces, m1: Ram, s1: Spaces, m2: Ram, s2: Spaces, j: nat)
    requires j in s0 && KeptSpace(m0, s0, m1, s1, j) && KeptSpace(m1, s1, m2, s2, j)
    ensures KeptSpace(m0, s0, m2, s2, j)
  {
    hide LeafPte;
    forall v: nat | v < PageUp(s0[j].sz) ensures SamePage(m0, s0[j].t, m2, s0[j].t, v) {
      assert SamePage(m0, s0[j].t, m1, s0[j].t, v) && SamePage(m1, s0[j].t, m2, s0[j].t, v);
    }
  }

  lemma Replaced(m0: Ram, f0: seq<nat>, kernel: set<nat>, spaces: Spaces, i: nat, m1: Ram, f1: seq<nat>,
                 s: AddressSpace)
    requires SystemOk(m0, f0, kernel, spaces) && i in spaces && SpaceOk(m1, f1, s) && s.t[ROOT] == i
    requires Touched(m0, m1, Elems(f0) + OwnedBy(m0, spaces[i]))
    requires Elems(f1) + OwnedBy(m1, s) == Elems(f0) + OwnedBy(m0, spaces[i])
    ensures SystemOk(m1, f1, kernel, spaces[i := s]) && Others(m0, spaces, m1, spaces[i := s], {i})
  {
    hide SystemOk, SpaceOk, OwnedBy, SameSpace, Touched;
    var o0, o1, rest := OwnedBy(m0, spaces[i]), OwnedBy(m1, s), spaces - {i};
    Withdraw(m0, f0, kernel, spaces, i);
    OwnedNotFree(m1, f1, s);
    KernelNotFree(m0, f0, kernel, spaces);
    Dealt(m0, f0, kernel + o0, rest, m1, f1, o0, o1);
    assert kernel + o0 - o0 + o1 == kernel + o1;
    Deposit(m1, f1, kernel + o1, rest, i, s);
    assert kernel + o1 - o1 == kernel;
    assert rest[i := s] == spaces[i := s];
    forall j | j in spaces && j != i ensures SameSpace(m0, m1, spaces[j]) { assert j in rest && rest[j] == spaces[j]; }
  }

  lemma KernelNotFree(mem: Ram, free: seq<nat>, kernel: set<nat>, spaces: Spaces)
    requires SystemOk(mem, free, kernel, spaces)
    ensures kernel !! Elems(free)
  {
  }

  lemma Created(m0: Ram, f0: seq<nat>, kernel: set<nat>, spaces: Spaces, i: nat, m1: Ram, f1: seq<nat>, s: AddressSpace)
    requires SystemOk(m0, f0, kernel, spaces) && SpaceOk(m1, f1, s) && s.t[ROOT] == i
    requires Touched(m0, m1, Elems(f0)) && Elems(f1) + OwnedBy(m1, s) == Elems(f0)
    ensures i !in spaces && SystemOk(m1, f1, kernel, spaces[i := s]) && Others(m0, spaces, m1, spaces[i := s], {i})
  {
    hide SystemOk, SpaceOk, OwnedBy, SameSpace, Touched;
    var o := OwnedBy(m1, s);
    OwnedNotFree(m1, f1, s);
    KernelNotFree(m0, f0, kernel, spaces);
    assert Elems(f0) + {} == Elems(f0);
    Dealt(m0, f0, kernel, spaces, m1, f1, {}, o);
    assert kernel - {} + o == kernel + o;
    RootIsNew(m1, f1, kernel + o, spaces, i, s);
    Deposit(m1, f1, kernel + o, spaces, i, s);
    assert kernel + o - o == kernel;
  }

  lemma RootIsNew(mem: Ram, free: seq<nat>, kernel: set<nat>, spaces: Spaces, i: nat, s: AddressSpace)
    requires SystemOk(mem, free, kernel, spaces) && OwnedBy(mem, s) <= kernel && ROOT in s.t && s.t[ROOT] == i
    ensures i !in spaces
  {
    assert i in OwnedBy(mem, s);
    assert i in spaces ==> MemberOk(mem, free, kernel, spaces, i);
  }

  lemma Freed(m0: Ram, f0: seq<nat>, kernel: set<nat>, spaces: Spaces, i: nat, m1: Ram, f1: seq<nat>)
    requires SystemOk(m0, f0, kernel, spaces) && i in spaces
    requires Touched(m0, m1, OwnedBy(m0, spaces[i])) && Elems(f1) == Elems(f0) + OwnedBy(m0, spaces[i])
    ensures SystemOk(m1, f1, kernel, spaces - {i}) && Others(m0, spaces, m1, spaces - {i}, {i})
  {
    hide SystemOk, SpaceOk, OwnedBy, SameSpace, Touched;
    var o, rest := OwnedBy(m0, spaces[i]), spaces - {i};
    Withdraw(m0, f0, kernel, spaces, i);
    NoChange(m0, map[], {});
    TouchedMore(m0, m0, m1, {}, o, Elems(f0) + o);
    Dealt(m0, f0, kernel + o, rest, m1, f1, o, {});
    assert kernel + o - o + {} == kernel;
    forall j | j in spaces && j != i ensures SameSpace(m0, m1, spaces[j]) { assert j in rest && rest[j] == spaces[j]; }
  }

  lemma ExtendedOwned(m0: Ram, f0: seq<nat>, t0: Tables, m1: Ram, f1: seq<nat>, t1: Tables, lo: nat, want: seq<Want>)
    requires Extended(m0, f0, t0, m1, f1, t1, lo, want)
    ensures Elems(f1) + Owned(m1, t1, lo + |want|) == Elems(f0) + Owned(m0, t0, lo)
    ensures Touched(m0, m1, Elems(f0) + Owned(m0, t0, lo)) && SameAbove(m0, t0, m1, t1)
  {
    hide LeafPte, Frame, SameAbove, SamePages, Frames, Pages, Elems, Touched, HoldsPage;
    var hi := lo + |want|;
    FramesSame(m0, t0, m1, t1, 0, lo);
    FramesSplit(m1, t1, lo, hi);
    SameTotal(Elems(f1), Pages(t1), Frames(m1, t1, 0, lo), Frames(m1, t1, lo, hi), Elems(f0), Pages(t0));
    NoChange(m0, t0, {});
    TouchedMore(m0, m0, m1, {}, Pool(f0, t0), Elems(f0) + Owned(m0, t0, lo));
  }

  lemma SameTotal(f1: set<nat>, p1: set<nat>, a: set<nat>, b: set<nat>, f0: set<nat>, p0: set<nat>)
    requires f1 + p1 + b == f0 + p0
    ensures f1 + (p1 + (a + b)) == f0 + (p0 + a)
  {
    assert f1 + (p1 + (a + b)) == f1 + p1 + b + a;
  }

  lemma FramesSplit(mem: Ram, t: Tables, lo: nat, hi: nat)
    requires lo <= hi
    ensures Frames(mem, t, 0, hi) == Frames(mem, t, 0, lo) + Frames(mem, t, lo, hi)
  {
    hide Frame;
  }

  lemma UnaffectedOwned(m0: Ram, f0: seq<nat>, t0: Tables, m1: Ram, f1: seq<nat>, t1: Tables, n: nat)
    requires Unaffected(m0, f0, t0, m1, f1, t1, n)
    ensures Elems(f1) + Owned(m1, t1, n) == Elems(f0) + Owned(m0, t0, n)
    ensures Touched(m0, m1, Elems(f0) + Owned(m0, t0, n)) && SameAbove(m0, t0, m1, t1)
  {
    hide LeafPte, Frame;
    FramesSame(m0, t0, m1, t1, 0, n);
  }

  lemma ShrunkOwned(m0: Ram, f0: seq<nat>, t: Tables, m1: Ram, f1: seq<nat>, lo: nat, hi: nat)
    requires lo <= hi && SamePages(m0, t, m1, t, 0, lo) && Elems(f1) == Elems(f0) + Frames(m0, t, lo, hi)
    requires Touched(m0, m1, Pages(t) + Frames(m0, t, lo, hi))
    ensures Elems(f1) + Owned(m1, t, lo) == Elems(f0) + Owned(m0, t, hi)
    ensures Touched(m0, m1, Elems(f0) + Owned(m0, t, hi))
  {
    hide LeafPte, Frame;
    FramesSame(m0, t, m1, t, 0, lo);
    FramesSplit(m0, t, lo, hi);
  }

  lemma SameTop(m0: Ram, t0: Tables, m1: Ram, t1: Tables, mapped: bool)
    requires TopOk(m0, t0, mapped) && SameAbove(m0, t0, m1, t1)
    ensures TopOk(m1, t1, mapped)
  {
    hide LeafPte;
  }

  /** A space that copyout wrote to. */
  lemma WrittenOk(m0: Ram, m1: Ram, free: seq<nat>, s: AddressSpace)
    requires SpaceOk(m0, free, s) && TablesOk(m1, s.t) && SameLeaves(m0, s.t, m1, s.t) && OnlyUser(m0, m1, s.t)
    ensures SpaceOk(m1, free, s) && OwnedBy(m1, s) == OwnedBy(m0, s) && Touched(m0, m1, OwnedBy(m0, s))
  {
    hide LeafPte, TablesOk, PteV, PteU;
    var n := PageUp(s.sz);
    forall v: nat | v < n ensures Frame(m1, s.t, v) == Frame(m0, s.t, v) && FrameOk(m1, Pool(free, s.t), s.t, v) {
      assert FrameOk(m0, Pool(free, s.t), s.t, v);
    }
    forall v: nat, w: nat | v < w < n ensures Frame(m1, s.t, v) != Frame(m1, s.t, w) {
      assert Frame(m0, s.t, v) != Frame(m0, s.t, w);
    }
    assert Frames(m1, s.t, 0, n) == Frames(m0, s.t, 0, n);
    forall p | p in m0 && p !in OwnedBy(m0, s) ensures m1[p] == m0[p] {
      assert !BehindUser(m0, s.t, p) by { UserPagesOwned(m0, free, s, p); }
    }
  }

  lemma UserPagesOwned(mem: Ram, free: seq<nat>, s: AddressSpace, p: nat)
    requires SpaceOk(mem, free, s) && p !in OwnedBy(mem, s)
    ensures !BehindUser(mem, s.t, p)
  {
    hide LeafPte, TablesOk;
    TopClosed(mem, s);
    forall va: nat | UserMapped(mem, s.t, va) ensures UserPage(mem, s.t, va) != p {
      UserVpn(mem, s.t, va, PageUp(s.sz));
    }
  }

  lemma TopClosed(mem: Ram, s: AddressSpace)
    requires TopOk(mem, s.t, s.mapped)
    ensures forall v: nat :: USERTOP <= v < MAXVPN ==> !PteU(LeafPte(mem, s.t, v))
  {
    hide LeafPte;
  }

  /** Without user memory no address is open to user code. */
  lemma EmptyForUser(k: Kmem, s: AddressSpace)
    requires Space(k, s.t, 0) && TopOk(k.mem, s.t, s.mapped)
    ensures forall va: nat :: !UserMapped(k.mem, s.t, va)
  {
    hide LeafPte;
    TopClosed(k.mem, s);
    forall va: nat ensures !UserMapped(k.mem, s.t, va) {
      if UserMapped(k.mem, s.t, va) { UserVpn(k.mem, s.t, va, 0); }
    }
  }

  lemma SelfSame(mem: Ram, t: Tables, sz: nat)
    ensures SameForUser(mem, t, mem, t, sz)
  {
  }

  /** copyin from zeroed memory. */
  lemma ZeroesSeen(mem: Ram, t: Tables, oldsz: nat, newsz: nat, va: nat, len: nat, dst: seq<byte>)
    requires ZeroedForUser(mem, t, oldsz, newsz) && oldsz <= va / PGSIZE * PGSIZE && va + len <= newsz
    requires Seen(mem, t, va, dst) && |dst| <= len && (|dst| < len ==> !UserMapped(mem, t, va + |dst|))
    ensures dst == Zeroes(len)
  {
    hide UserMapped, UserByte, LeafPte;
    forall a: nat | va <= a < va + len ensures oldsz <= a / 0x1000 * 0x1000 { }
    var end: nat := va + |dst|;
    assert end < va + len ==> UserMapped(mem, t, end);
    forall i | 0 <= i < |dst| ensures dst[i] == 0 { assert UserByte(mem, t, va + i) == dst[i]; }
  }

  /** Two copyins where user code finds the same. */
  lemma SameSeen(m0: Ram, t0: Tables, m1: Ram, t1: Tables, sz: nat, va: nat, len: nat, d0: seq<byte>, d1: seq<byte>)
    requires SameForUser(m0, t0, m1, t1, sz) && va + len <= sz
    requires Seen(m0, t0, va, d0) && |d0| <= len && (|d0| < len ==> !UserMapped(m0, t0, va + |d0|))
    requires Seen(m1, t1, va, d1) && |d1| <= len && (|d1| < len ==> !UserMapped(m1, t1, va + |d1|))
    ensures d0 == d1
  {
    hide UserMapped, UserByte;
    var e0: nat, e1: nat := va + |d0|, va + |d1|;
    assert e0 < e1 ==> UserMapped(m1, t1, e0);
    assert e1 < e0 ==> UserMapped(m0, t0, e1);
    forall i | 0 <= i < |d0| && i < |d1| ensures d0[i] == d1[i] {
      assert UserByte(m0, t0, va + i) == d0[i] && UserByte(m1, t1, va + i) == d1[i];
    }
  }

  /** V, R and X for the trampoline, V, R and W for the trapframe, in the last two pages. */
  lemma TopNumbers(mem: Ram, t: Tables, trampoline: nat, trapframe: nat)
    requires TopMapped(mem, t, trampoline, trapframe)
    ensures LeafPte(mem, t, 0x3FF_FFFF) == 1024 * trampoline + 0xB
    ensures LeafPte(mem, t, 0x3FF_FFFE) == 1024 * trapframe + 0x7
  {
    hide LeafPte;
  }

  // ---- The same, for what the methods of vm.c promise --------------------

  lemma SameSpaces(mem: Ram, free: seq<nat>, kernel: set<nat>, spaces: Spaces)
    requires SystemOk(mem, free, kernel, spaces)
    ensures Others(mem, spaces, mem, spaces, {})
  {
    hide SystemOk, SameSpace;
    NoChange(mem, map[], Elems(free));
    Reshuffled(mem, free, kernel, spaces, mem, free);
  }

  lemma Reshuffled(m0: Ram, f0: seq<nat>, kernel: set<nat>, spaces: Spaces, m1: Ram, f1: seq<nat>)
    requires SystemOk(m0, f0, kernel, spaces) && Touched(m0, m1, Elems(f0)) && Elems(f1) == Elems(f0)
    ensures SystemOk(m1, f1, kernel, spaces) && Others(m0, spaces, m1, spaces, {})
  {
    hide SystemOk, SameSpace, Touched;
    assert Elems(f0) + {} == Elems(f0);
    Dealt(m0, f0, kernel, spaces, m1, f1, {}, {});
    assert kernel - {} + {} == kernel;
  }

  lemma KernelPage(mem: Ram, free: seq<nat>, kernel: set<nat>, spaces: Spaces, p: nat)
    requires SystemOk(mem, free, kernel, spaces) && p in kernel
    ensures p in mem && p !in free
  {
    assert p !in Elems(free);
  }

  lemma Taken(m0: Ram, f0: seq<nat>, kernel: set<nat>, spaces: Spaces, m1: Ram)
    requires SystemOk(m0, f0, kernel, spaces) && f0 != [] && f0[0] !in f0[1..]
    requires f0[0] in m0 && f0[0] in m1 && m1 == m0[f0[0] := m1[f0[0]]]
    ensures SystemOk(m1, f0[1..], kernel + {f0[0]}, spaces) && Others(m0, spaces, m1, spaces, {})
  {
    hide SystemOk, SameSpace;
    RootPool(f0);
    assert f0 == [f0[0]] + f0[1..];
    ElemsPush(f0[0], f0[1..]);
    Dealt(m0, f0, kernel, spaces, m1, f0[1..], {}, {f0[0]});
    assert kernel - {} + {f0[0]} == kernel + {f0[0]};
  }

  lemma Returned(m0: Ram, f0: seq<nat>, kernel: set<nat>, spaces: Spaces, m1: Ram, p: nat)
    requires SystemOk(m0, f0, kernel, spaces) && p in kernel && p in m0 && p in m1 && m1 == m0[p := m1[p]]
    ensures SystemOk(m1, [p] + f0, kernel - {p}, spaces) && Others(m0, spaces, m1, spaces, {})
  {
    hide SystemOk, SameSpace;
    ElemsPush(p, f0);
    Dealt(m0, f0, kernel, spaces, m1, [p] + f0, {p}, {});
    assert kernel - {p} + {} == kernel - {p};
  }

  lemma SpaceIsOk(k: Kmem, s: AddressSpace)
    requires Space(k, s.t, PageUp(s.sz)) && TopOk(k.mem, s.t, s.mapped)
    ensures SpaceOk(k.mem, k.free, s)
  {
  }

  lemma MemberSpace(k: Kmem, kernel: set<nat>, spaces: Spaces, i: nat)
    requires k.Valid() && SystemOk(k.mem, k.free, kernel, spaces) && i in spaces
    ensures SpaceOk(k.mem, k.free, spaces[i]) && Space(k, spaces[i].t, PageUp(spaces[i].sz)) && spaces[i].t[ROOT] == i
    ensures TopOk(k.mem, spaces[i].t, spaces[i].mapped)
    ensures !spaces[i].mapped ==> Clear(k.mem, spaces[i].t, PageUp(spaces[i].sz), MAXVPN)
    ensures spaces[i].mapped ==> forall v: nat :: USERTOP <= v < MAXVPN ==> PteMapped(LeafPte(k.mem, spaces[i].t, v))
  {
    hide TablesOk, LeafPte, Private, SystemOk, OwnedBy, PteU, PteV, Pool;
    Member(k.mem, k.free, kernel, spaces, i);
  }

  lemma Member(mem: Ram, free: seq<nat>, kernel: set<nat>, spaces: Spaces, i: nat)
    requires SystemOk(mem, free, kernel, spaces) && i in spaces
    ensures MemberOk(mem, free, kernel, spaces, i)
    ensures forall j :: j in spaces ==> Disjoint(mem, spaces, i, j)
  {
    hide MemberOk, Disjoint;
  }

  lemma FreshSpace(f0: seq<nat>, k: Kmem, t: Tables)
    requires f0 != [] && k.free == f0[1..] && t == map[ROOT := f0[0]]
    requires Space(k, t, 0) && Clear(k.mem, t, 0, MAXVPN)
    ensures SpaceOk(k.mem, k.free, AddressSpace(t, 0, false))
    ensures Elems(k.free) + OwnedBy(k.mem, AddressSpace(t, 0, false)) == Elems(f0) && {f0[0]} <= Elems(f0)
  {
    hide TablesOk, LeafPte, Private;
    assert PageUp(0) == 0;
    RootPool(f0);
    assert Frames(k.mem, t, 0, 0) == {};
    SpaceIsOk(k, AddressSpace(t, 0, false));
  }

  lemma ProcSpace(f0: seq<nat>, k: Kmem, t: Tables)
    requires Space(k, t, 0) && TopOk(k.mem, t, true) && Pool(k.free, t) == Elems(f0)
    ensures SpaceOk(k.mem, k.free, AddressSpace(t, 0, true))
    ensures Elems(k.free) + OwnedBy(k.mem, AddressSpace(t, 0, true)) == Elems(f0)
  {
    hide TablesOk, LeafPte, Private, TopOk;
    assert PageUp(0) == 0;
    assert Frames(k.mem, t, 0, 0) == {};
    SpaceIsOk(k, AddressSpace(t, 0, true));
  }

  /** The space s has become s': what it gained came from the free pages, what it lost is free. */
  ghost predicate Became(m0: Ram, f0: seq<nat>, s: AddressSpace, m1: Ram, f1: seq<nat>, s': AddressSpace)
  {
    && SpaceOk(m1, f1, s') && Touched(m0, m1, Elems(f0) + OwnedBy(m0, s))
    && Elems(f1) + OwnedBy(m1, s') == Elems(f0) + OwnedBy(m0, s)
  }

  lemma Stayed(mem: Ram, free: seq<nat>, s: AddressSpace)
    requires SpaceOk(mem, free, s)
    ensures Became(mem, free, s, mem, free, s)
  {
  }

  lemma Enlarged(m0: Ram, f0: seq<nat>, s: AddressSpace, k: Kmem, s': AddressSpace, want: seq<Want>)
    requires TopOk(m0, s.t, s.mapped) && s'.mapped == s.mapped && PageUp(s'.sz) == PageUp(s.sz) + |want|
    requires Space(k, s'.t, PageUp(s'.sz)) && Extended(m0, f0, s.t, k.mem, k.free, s'.t, PageUp(s.sz), want)
    ensures Became(m0, f0, s, k.mem, k.free, s')
  {
    hide TablesOk, LeafPte, Private, Extended, TopOk, SameAbove, PageUp;
    ExtendedOwned(m0, f0, s.t, k.mem, k.free, s'.t, PageUp(s.sz), want);
    SameTop(m0, s.t, k.mem, s'.t, s.mapped);
    SpaceIsOk(k, s');
  }

  lemma NotEnlarged(m0: Ram, f0: seq<nat>, s: AddressSpace, k: Kmem, s': AddressSpace)
    requires TopOk(m0, s.t, s.mapped) && s'.mapped == s.mapped && s'.sz == s.sz
    requires Space(k, s'.t, PageUp(s.sz)) && Unaffected(m0, f0, s.t, k.mem, k.free, s'.t, PageUp(s.sz))
    ensures Became(m0, f0, s, k.mem, k.free, s')
  {
    hide TablesOk, LeafPte, Private, Unaffected, TopOk, SameAbove, PageUp;
    UnaffectedOwned(m0, f0, s.t, k.mem, k.free, s'.t, PageUp(s.sz));
    SameTop(m0, s.t, k.mem, s'.t, s.mapped);
    SpaceIsOk(k, s');
  }

  lemma Reduced(m0: Ram, f0: seq<nat>, s: AddressSpace, k: Kmem, r: nat)
    requires TopOk(m0, s.t, s.mapped) && PageUp(r) <= PageUp(s.sz) && Space(k, s.t, PageUp(r))
    requires SamePages(m0, s.t, k.mem, s.t, 0, PageUp(r)) && SameAbove(m0, s.t, k.mem, s.t)
    requires Elems(k.free) == Elems(f0) + Frames(m0, s.t, PageUp(r), PageUp(s.sz))
    requires Touched(m0, k.mem, Pages(s.t) + Frames(m0, s.t, PageUp(r), PageUp(s.sz)))
    ensures Became(m0, f0, s, k.mem, k.free, s.(sz := r))
  {
    hide TablesOk, LeafPte, Private, TopOk, SameAbove, PageUp, SamePages;
    ShrunkOwned(m0, f0, s.t, k.mem, k.free, PageUp(r), PageUp(s.sz));
    SameTop(m0, s.t, k.mem, s.t, s.mapped);
    SpaceIsOk(k, s.(sz := r));
  }

  lemma Written(m0: Ram, k: Kmem, s: AddressSpace)
    requires SpaceOk(m0, k.free, s) && Ready(k, s.t) && SameLeaves(m0, s.t, k.mem, s.t) && OnlyUser(m0, k.mem, s.t)
    ensures Became(m0, k.free, s, k.mem, k.free, s)
  {
    hide SpaceOk, OwnedBy, Ready;
    assert TablesOk(k.mem, s.t);
    WrittenOk(m0, k.mem, k.free, s);
  }

  /** The parent's pages are out of uvmcopy's reach. */
  lemma ParentOutside(k: Kmem, kernel: set<nat>, spaces: Spaces, parent: nat, i: nat)
    requires SystemOk(k.mem, k.free, kernel, spaces) && parent in spaces && i in spaces && parent != i
    ensures var q := spaces[parent];
            ParentOk(k.mem, q.t, Pool(k.free, spaces[i].t), PageUp(q.sz)) && ROOT in q.t && q.t[ROOT] == parent
            && q.sz <= PGSIZE * USERTOP
  {
    hide TablesOk, LeafPte, SystemOk, SpaceOk, ParentOk;
    var mem, q := k.mem, spaces[parent];
    Member(mem, k.free, kernel, spaces, parent);
    assert Disjoint(mem, spaces, parent, i);
    OwnedNotFree(mem, k.free, q);
    OutsideOther(mem, k.free, q, spaces[i].t);
  }

  lemma OutsideOther(mem: Ram, free: seq<nat>, q: AddressSpace, t: Tables)
    requires SpaceOk(mem, free, q) && OwnedBy(mem, q) !! Elems(free) && OwnedBy(mem, q) !! Pages(t)
    ensures ParentOk(mem, q.t, Pool(free, t), PageUp(q.sz)) && q.sz <= PGSIZE * USERTOP
  {
    hide TablesOk, LeafPte, PteV, Clear, TopOk;
    forall v: nat | v < PageUp(q.sz) ensures FrameOk(mem, Pool(free, t), q.t, v) {
      assert FrameOk(mem, Pool(free, q.t), q.t, v);
      assert Frame(mem, q.t, v) in OwnedBy(mem, q);
    }
  }

  // ---- The machine ------------------------------------------------------

  /** What the kernel remembers of an address space. */
  datatype Proc = Proc(sz: nat, mapped: bool)

  ghost predicate Listed(procs: map<nat, Proc>, spaces: Spaces)
  {
    procs.Keys == spaces.Keys && forall i :: i in procs ==> procs[i] == Proc(spaces[i].sz, spaces[i].mapped)
  }

  /** A request to the memory system.  Address spaces go by the page of their root table. */
  datatype Request =
    | Allocate
    | Release(p: nat)
    | Create
    | CreateProc(trapframe: nat)
    | Grow(i: nat, newsz: nat)
    | Shrink(i: nat, newsz: nat)
    | Copy(parent: nat, i: nat)
    | Write(i: nat, va: nat, src: seq<byte>)
    | Free(i: nat)

  /** The request changes address space j. */
  predicate Concerns(r: Request, j: nat)
  {
    match r
    case Grow(i, _) => i == j
    case Shrink(i, _) => i == j
    case Copy(_, i) => i == j
    case Write(i, _, _) => i == j
    case Free(i) => i == j
    case _ => false
  }

  lemma StillThere(m0: Ram, s0: Spaces, m1: Ram, s1: Spaces, m2: Ram, s2: Spaces, requests: seq<Request>, n: nat,
                   j: nat)
    requires j in s0 && n < |requests| && forall r :: r in requests[..n + 1] ==> !Concerns(r, j)
    requires (forall r :: r in requests[..n] ==> !Concerns(r, j)) ==> KeptSpace(m0, s0, m1, s1, j)
    requires j in s1 && !Concerns(requests[n], j) ==> KeptSpace(m1, s1, m2, s2, j)
    ensures KeptSpace(m0, s0, m2, s2, j)
  {
    hide SameSpace, Concerns;
    assert requests[..n + 1] == requests[..n] + [requests[n]];
    assert requests[n] in requests[..n + 1];
    KeptTwice(m0, s0, m1, s1, m2, s2, j);
  }

  class Machine {
    const k: Kmem
    const trampoline: nat
    var procs: map<nat, Proc>
    var kernel: set<nat>  // pages that the kernel took with kalloc
    ghost var spaces: Spaces

    ghost predicate Valid()
      reads this, k
    {
      k.Valid() && trampoline <= PHYSTOP_PAGE && Listed(procs, spaces) && SystemOk(k.mem, k.free, kernel, spaces)
    }

    constructor (k: Kmem, trampoline: nat)
      requires k.Valid() && Elems(k.free) == k.mem.Keys && trampoline <= PHYSTOP_PAGE
      ensures Valid() && this.k == k && procs == map[] && kernel == {} && spaces == map[]
    {
      this.k, this.trampoline, procs, kernel, spaces := k, trampoline, map[], {}, map[];
    }

    /** kalloc for the kernel's own use. */
    method TakePage() returns (p: nat)
      requires Valid()
      modifies this, k
      ensures Valid() && procs == old(procs) && spaces == old(spaces) && Others(old(k.mem), spaces, k.mem, spaces, {})
      ensures p == 0 <==> old(k.free) == []
      ensures kernel == old(kernel) + if p == 0 then {} else {p}
    {
      hide SystemOk, SameSpace;
      ghost var m0, f0 := k.mem, k.free;
      SameSpaces(m0, f0, kernel, spaces);
      p := k.Kalloc();
      if p == 0 { return; }
      Taken(m0, f0, kernel, spaces, k.mem);
      kernel := kernel + {p};
    }

    /** kfree of a page of the kernel's own. */
    method ReturnPage(p: nat)
      requires Valid() && p in kernel
      modifies this, k
      ensures Valid() && procs == old(procs) && spaces == old(spaces) && Others(old(k.mem), spaces, k.mem, spaces, {})
      ensures kernel == old(kernel) - {p} && k.free == [p] + old(k.free)
    {
      hide SystemOk, SameSpace;
      ghost var m0, f0 := k.mem, k.free;
      KernelPage(m0, f0, kernel, spaces, p);
      k.Kfree(p);
      Returned(m0, f0, kernel, spaces, k.mem, p);
      kernel := kernel - {p};
    }

    /** uvmcreate */
    method New() returns (i: nat)
      requires Valid()
      modifies this, k
      ensures Valid() && kernel == old(kernel) && Others(old(k.mem), old(spaces), k.mem, spaces, {})
      ensures i == 0 <==> old(k.free) == []
      ensures i == 0 ==> procs == old(procs)
      ensures i != 0 ==> i !in old(procs) && procs == old(procs)[i := Proc(0, false)]
      ensures i != 0 ==> i in spaces && forall va: nat :: !UserMapped(k.mem, spaces[i].t, va)
    {
      hide UserMapped, SystemOk, SameSpace, SpaceOk, OwnedBy;
      ghost var m0, f0, t := k.mem, k.free, map[];
      SameSpaces(m0, f0, kernel, spaces);
      i, t := Uvmcreate(k);
      if i == 0 { return; }
      FreshSpace(f0, k, t);
      EmptyForUser(k, AddressSpace(t, 0, false));
      NoChange(m0, map[], Elems(f0));
      TouchedMore(m0, m0, k.mem, Elems(f0), {i}, Elems(f0));
      Created(m0, f0, kernel, spaces, i, k.mem, k.free, AddressSpace(t, 0, false));
      procs, spaces := procs[i := Proc(0, false)], spaces[i := AddressSpace(t, 0, false)];
    }

    /** proc_pagetable for a process whose trapframe is page `trapframe`. */
    method NewProc(trapframe: nat) returns (i: nat)
      requires Valid() && trapframe in kernel
      modifies this, k
      ensures Valid() && kernel == old(kernel) && Others(old(k.mem), old(spaces), k.mem, spaces, {})
      ensures i == 0 ==> procs == old(procs) && Elems(k.free) == Elems(old(k.free)) && |old(k.free)| <= 4
      ensures i != 0 ==> i !in old(procs) && procs == old(procs)[i := Proc(0, true)]
      ensures i != 0 ==>
                && i in spaces && (forall va: nat :: !UserMapped(k.mem, spaces[i].t, va))
                && LeafPte(k.mem, spaces[i].t, 0x3FF_FFFF) == 1024 * trampoline + 0xB
                && LeafPte(k.mem, spaces[i].t, 0x3FF_FFFE) == 1024 * trapframe + 0x7
    {
      hide LeafPte, UserMapped, SystemOk, SameSpace, SpaceOk, OwnedBy, TopMapped, TopOk;
      ghost var m0, f0, t := k.mem, k.free, map[];
      KernelPage(m0, f0, kernel, spaces, trapframe);
      i, t := ProcPagetable(k, trampoline, trapframe);
      if i == 0 {
        Reshuffled(m0, f0, kernel, spaces, k.mem, k.free);
        return;
      }
      TopNumbers(k.mem, t, trampoline, trapframe);
      TopIsOk(k.mem, t, trampoline, trapframe);
      EmptyForUser(k, AddressSpace(t, 0, true));
      ProcSpace(f0, k, t);
      Created(m0, f0, kernel, spaces, i, k.mem, k.free, AddressSpace(t, 0, true));
      procs, spaces := procs[i := Proc(0, true)], spaces[i := AddressSpace(t, 0, true)];
    }

    /** uvmalloc, as growproc uses it. */
    method Grow(i: nat, newsz: nat) returns (r: nat, ghost s: AddressSpace)
      requires Valid() && i in procs && newsz <= PGSIZE * USERTOP
      modifies k
      ensures k.Valid() && i in spaces && Became(old(k.mem), old(k.free), spaces[i], k.mem, k.free, s)
      ensures s.t.Keys >= {ROOT} && s.t[ROOT] == i && s.mapped == spaces[i].mapped
      ensures s.sz == if r == 0 then procs[i].sz else r
      ensures r == 0 || r == if newsz < procs[i].sz then procs[i].sz else newsz
      ensures r == newsz > procs[i].sz ==>
                && Extended(old(k.mem), old(k.free), spaces[i].t, k.mem, k.free, s.t, PageUp(procs[i].sz),
                            ZeroPages(PageUp(newsz) - PageUp(procs[i].sz)))
                && ZeroedForUser(k.mem, s.t, procs[i].sz, newsz)
      ensures SameForUser(old(k.mem), spaces[i].t, k.mem, s.t, procs[i].sz)
      ensures r == 0 < newsz ==> |old(k.free)| < 3 * (PageUp(newsz) - PageUp(procs[i].sz))
    {
      hide ZeroedForUser, SameForUser, SystemOk, SameSpace, SpaceOk, OwnedBy, Extended, Unaffected, Space, TopOk;
      hide Touched, LeafPte, Clear, Frame, ParentOk, SamePages, SameLeaves, Became, Elems;
      ghost var m0, f0, s0, t, ok := k.mem, k.free, spaces[i], map[], true;
      MemberSpace(k, kernel, spaces, i);
      r, ok, t := Uvmalloc(k, i, procs[i].sz, newsz, s0.t);
      s := s0.(t := t, sz := if r == 0 then procs[i].sz else r);
      if newsz < s0.sz {
        Stayed(m0, f0, s0);
        SelfSame(m0, s0.t, s0.sz);
      } else if ok {
        Enlarged(m0, f0, s0, k, s, ZeroPages(PageUp(newsz) - PageUp(s0.sz)));
      } else {
        NotEnlarged(m0, f0, s0, k, s);
      }
    }

    /** growproc that asks for more. */
    method Enlarge(i: nat, newsz: nat) returns (r: nat)
      requires Valid() && i in procs && newsz <= PGSIZE * USERTOP
      modifies this, k
      ensures Valid() && kernel == old(kernel) && Others(old(k.mem), old(spaces), k.mem, spaces, {i})
      ensures procs == old(procs)[i := old(procs)[i].(sz := if r == 0 then old(procs)[i].sz else r)]
      ensures r == 0 || r == if newsz < old(procs)[i].sz then old(procs)[i].sz else newsz
      ensures i in old(spaces) && i in spaces
      ensures r == newsz > old(procs)[i].sz ==>
                && Extended(old(k.mem), old(k.free), old(spaces)[i].t, k.mem, k.free, spaces[i].t,
                            PageUp(old(procs)[i].sz), ZeroPages(PageUp(newsz) - PageUp(old(procs)[i].sz)))
                && ZeroedForUser(k.mem, spaces[i].t, old(procs)[i].sz, newsz)
      ensures SameForUser(old(k.mem), old(spaces)[i].t, k.mem, spaces[i].t, old(procs)[i].sz)
      ensures r == 0 < newsz ==> |old(k.free)| < 3 * (PageUp(newsz) - PageUp(old(procs)[i].sz))
    {
      hide ZeroedForUser, SameForUser, SystemOk, SpaceOk, OwnedBy, Touched, Elems, Others, Extended, ZeroPages;
      ghost var m0, f0, s := k.mem, k.free, spaces[i];
      r, s := Grow(i, newsz);
      Replaced(m0, f0, kernel, spaces, i, k.mem, k.free, s);
      procs, spaces := procs[i := procs[i].(sz := if r == 0 then procs[i].sz else r)], spaces[i := s];
    }

    /** uvmdealloc, as growproc uses it. */
    method Reduce(i: nat, newsz: nat)
      requires Valid() && i in procs
      modifies this, k
      ensures Valid() && kernel == old(kernel) && Others(old(k.mem), old(spaces), k.mem, spaces, {i})
      ensures var sz := old(procs)[i].sz;
              procs == old(procs)[i := old(procs)[i].(sz := if newsz < sz then newsz else sz)]
      ensures i in old(spaces) && i in spaces && spaces[i].t == old(spaces)[i].t
      ensures SamePages(old(k.mem), spaces[i].t, k.mem, spaces[i].t, 0, PageUp(procs[i].sz))
      ensures SameForUser(old(k.mem), spaces[i].t, k.mem, spaces[i].t, procs[i].sz)
      ensures ClosedToUser(k.mem, spaces[i].t, procs[i].sz)
    {
      hide SameForUser, ClosedToUser;
      hide SystemOk, SameSpace, SpaceOk, OwnedBy, Touched, LeafPte, Clear, Space, TopOk, SamePages, SameAbove, Frames;
      ghost var m0, f0, s := k.mem, k.free, spaces[i];
      MemberSpace(k, kernel, spaces, i);
      var r := Uvmdealloc(k, i, procs[i].sz, newsz, s.t);
      Reduced(m0, f0, s, k, r);
      Replaced(m0, f0, kernel, spaces, i, k.mem, k.free, s.(sz := r));
      procs, spaces := procs[i := procs[i].(sz := r)], spaces[i := s.(sz := r)];
    }

    /** uvmcopy into an address space that has no user memory yet, as fork uses it. */
    method Duplicate(parent: nat, i: nat) returns (ok: bool)
      requires Valid() && parent in procs && i in procs && parent != i && procs[i].sz == 0
      modifies this, k
      ensures Valid() && kernel == old(kernel) && Others(old(k.mem), old(spaces), k.mem, spaces, {i})
      ensures procs == old(procs)[i := old(procs)[i].(sz := if ok then old(procs)[parent].sz else 0)]
      ensures i in old(spaces) && i in spaces && parent in old(spaces)
      ensures ok ==>
                var n, t := PageUp(old(procs)[parent].sz), old(spaces)[parent].t;
                && (forall v: nat :: v < n ==> Frame(old(k.mem), t, v) in old(k.mem))
                && Extended(old(k.mem), old(k.free), old(spaces)[i].t, k.mem, k.free, spaces[i].t, 0,
                            PagesOf(old(k.mem), t, n))
                && SameForUser(old(k.mem), t, k.mem, spaces[i].t, procs[i].sz)
      ensures !ok ==> |old(k.free)| < 3 * PageUp(old(procs)[parent].sz)
    {
      hide SameForUser;
      hide SystemOk, SameSpace, SpaceOk, OwnedBy, Extended, Unaffected, Space, TopOk, Touched, LeafPte, Clear, Frame,
           ParentOk, SamePages, SameLeaves, PageUp, ZeroPages, PagesOf, Pool, Ready, Elems, Others;
      ghost var m0, f0, s, q, t := k.mem, k.free, spaces[i], spaces[parent], map[];
      MemberSpace(k, kernel, spaces, i);
      ParentOutside(k, kernel, spaces, parent, i);
      ok, t := Uvmcopy(k, parent, i, procs[parent].sz, q.t, s.t);
      var sz := if ok then procs[parent].sz else 0;
      ghost var s1 := s.(t := t, sz := sz);
      if ok {
        Enlarged(m0, f0, s, k, s1, PagesOf(m0, q.t, PageUp(q.sz)));
      } else {
        NotEnlarged(m0, f0, s, k, s1);
      }
      Replaced(m0, f0, kernel, spaces, i, k.mem, k.free, s1);
      procs, spaces := procs[i := procs[i].(sz := sz)], spaces[i := s1];
    }

    /** copyout to user memory. */
    method Put(i: nat, va: nat, src: seq<byte>) returns (r: int, ghost n: nat)
      requires Valid() && i in procs
      modifies this, k
      ensures Valid() && kernel == old(kernel) && procs == old(procs) && spaces == old(spaces)
      ensures Others(old(k.mem), spaces, k.mem, spaces, {i})
      ensures i in spaces && n <= |src| && r == if n == |src| then 0 else -1
      ensures Wrote(old(k.mem), k.mem, spaces[i].t, va, src[..n])
      ensures n < |src| ==> !UserMapped(old(k.mem), spaces[i].t, va + n)
    {
      hide SystemOk, SameSpace, SpaceOk, OwnedBy, OnlyUser, Wrote, OwnPages;
      ghost var m0, f0, s := k.mem, k.free, spaces[i];
      n := 0;
      MemberSpace(k, kernel, spaces, i);
      TopClosed(m0, s);
      SpaceOwnsPages(k, s.t, PageUp(s.sz));
      r, n := Copyout(k, i, va, src, s.t);
      Written(m0, k, s);
      Replaced(m0, f0, kernel, spaces, i, k.mem, k.free, s);
      assert spaces[i := s] == spaces;
    }

    /** copyin from user memory. */
    method Fetch(i: nat, va: nat, len: nat) returns (r: int, dst: seq<byte>)
      requires Valid() && i in procs
      modifies k
      ensures Valid() && unchanged(k) && i in spaces && |dst| <= len && r == if |dst| == len then 0 else -1
      ensures Seen(k.mem, spaces[i].t, va, dst) && (|dst| < len ==> !UserMapped(k.mem, spaces[i].t, va + |dst|))
    {
      hide SystemOk, SameSpace, SpaceOk, OwnedBy, Seen;
      ghost var s := spaces[i];
      MemberSpace(k, kernel, spaces, i);
      TopClosed(k.mem, s);
      SpaceOwnsPages(k, s.t, PageUp(s.sz));
      r, dst := Copyin(k, i, va, len, s.t);
    }

    /** New memory can be read at once and reads as zero. */
    method GrowThenFetch(i: nat, newsz: nat, va: nat, len: nat) returns (r: nat, got: int, dst: seq<byte>)
      requires Valid() && i in procs && procs[i].sz < newsz <= PGSIZE * USERTOP
      requires procs[i].sz <= va / PGSIZE * PGSIZE && va + len <= newsz
      modifies this, k
      ensures Valid() && (r == 0 || r == newsz)
      ensures r == 0 ==> |old(k.free)| < 3 * (PageUp(newsz) - PageUp(old(procs)[i].sz))
      ensures r == newsz ==> got == 0 && dst == Zeroes(len)
    {
      hide Valid, UserMapped, UserByte;
      ghost var sz := procs[i].sz;
      r := Enlarge(i, newsz);
      got, dst := -1, [];
      if r == newsz {
        got, dst := Fetch(i, va, len);
        ZeroesSeen(k.mem, spaces[i].t, sz, newsz, va, len, dst);
      }
    }

    /** After fork the child reads what the parent does, wherever it looks below the parent's size. */
    method CopyThenFetch(parent: nat, i: nat, va: nat, len: nat)
      returns (ok: bool, r0: int, d0: seq<byte>, r1: int, d1: seq<byte>)
      requires Valid() && parent in procs && i in procs && parent != i && procs[i].sz == 0
      requires va + len <= procs[parent].sz
      modifies this, k
      ensures Valid() && (!ok ==> |old(k.free)| < 3 * PageUp(old(procs)[parent].sz))
      ensures ok ==> r0 == r1 && d0 == d1
    {
      hide Valid, UserMapped, UserByte;
      ghost var s := spaces;
      r0, d0 := Fetch(parent, va, len);
      ghost var m0 := k.mem;
      ok := Duplicate(parent, i);
      r1, d1 := r0, d0;
      if ok {
        r1, d1 := Fetch(i, va, len);
        SameSeen(m0, s[parent].t, k.mem, spaces[i].t, procs[i].sz, va, len, d0, d1);
      }
    }

    /** uvmfree, or proc_freepagetable for a process. */
    method Drop(i: nat)
      requires Valid() && i in procs
      modifies this, k
      ensures Valid() && kernel == old(kernel) && Others(old(k.mem), old(spaces), k.mem, spaces, {i})
      ensures procs == old(procs) - {i} && spaces == old(spaces) - {i}
      ensures Elems(k.free) == Elems(old(k.free)) + old(OwnedBy(k.mem, spaces[i]))
    {
      hide SystemOk, SameSpace, SpaceOk, Touched, LeafPte, Clear, Space, TopOk, Owned;
      ghost var m0, f0, s := k.mem, k.free, spaces[i];
      MemberSpace(k, kernel, spaces, i);
      if procs[i].mapped {
        FreePagetable(k, i, procs[i].sz, s.t);
      } else {
        Uvmfree(k, i, procs[i].sz, s.t);
      }
      Freed(m0, f0, kernel, spaces, i, k.mem, k.free);
      procs, spaces := procs - {i}, spaces - {i};
    }

    /** A request for pages or for a new address space. */
    method Provide(r: Request)
      requires Valid()
      modifies this, k
      ensures Valid() && k.mem.Keys == old(k.mem.Keys)
      ensures forall j :: j in old(spaces) && !Concerns(r, j) ==> KeptSpace(old(k.mem), old(spaces), k.mem, spaces, j)
    {
      hide SystemOk, KeptSpace;
      SameSpaces(k.mem, k.free, kernel, spaces);
      match r
      case Allocate => var p := TakePage();
      case Release(p) => if p in kernel { ReturnPage(p); }
      case Create => var i := New();
      case CreateProc(trapframe) => if trapframe in kernel { var i := NewProc(trapframe); }
      case _ =>
    }

    /** One request.  What cannot be asked for is not done: a page that is not the kernel's,
        an address space that does not exist, a size beyond the trapframe. */
    method Perform(r: Request)
      requires Valid()
      modifies this, k
      ensures Valid() && k.mem.Keys == old(k.mem.Keys)
      ensures forall j :: j in old(spaces) && !Concerns(r, j) ==> KeptSpace(old(k.mem), old(spaces), k.mem, spaces, j)
    {
      hide SystemOk, KeptSpace;
      SameSpaces(k.mem, k.free, kernel, spaces);
      match r
      case Grow(i, newsz) => if i in procs && newsz <= PGSIZE * USERTOP { var sz := Enlarge(i, newsz); }
      case Shrink(i, newsz) => if i in procs { Reduce(i, newsz); }
      case Copy(parent, i) =>
        if parent in procs && i in procs && parent != i && procs[i].sz == 0 { var ok := Duplicate(parent, i); }
      case Write(i, va, src) => if i in procs { var done, n := Put(i, va, src); }
      case Free(i) => if i in procs { Drop(i); }
      case _ => Provide(r);
    }

    /** Any sequence of requests, with kalloc failing wherever memory is short: every page
        has exactly one use at the end, and an address space that no request concerns reads
        as it did. */
    method Serve(requests: seq<Request>)
      requires Valid()
      modifies this, k
      ensures Valid() && k.mem.Keys == old(k.mem.Keys)
      ensures forall j :: j in old(spaces) && (forall r :: r in requests ==> !Concerns(r, j)) ==>
                KeptSpace(old(k.mem), old(spaces), k.mem, spaces, j)
    {
      hide SystemOk, KeptSpace;
      SameSpaces(k.mem, k.free, kernel, spaces);
      for n := 0 to |requests|
        invariant Valid() && k.mem.Keys == old(k.mem.Keys)
        invariant forall j :: j in old(spaces) && (forall r :: r in requests[..n] ==> !Concerns(r, j)) ==>
                    KeptSpace(old(k.mem), old(spaces), k.mem, spaces, j)
      {
        ghost var m1, s1 := k.mem, spaces;
        Perform(requests[n]);
        forall j | j in old(spaces) && (forall r :: r in requests[..n + 1] ==> !Concerns(r, j))
          ensures KeptSpace(old(k.mem), old(spaces), k.mem, spaces, j)
        {
          StillThere(old(k.mem), old(spaces), m1, s1, k.mem, spaces, requests, n, j);
        }
      }
      assert requests[..|requests|] == requests;
    }
  }
}
