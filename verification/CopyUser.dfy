/** Copying between kernel and user memory: kernel/vm.c's copyin, copyinstr and
    copyout, as flat copies of the user's virtual address space. */
module CopyUser {
  import opened Words
  import opened Counting
  import opened PageAllocator
  import opened PageTable
  import opened VirtualMemory
  import opened UserMemory

  /** Pages that user code can reach exist. */
  ghost predicate Backed(mem: Ram, t: Tables)
  {
    forall va: nat :: UserPage(mem, t, va) != 0 ==> UserPage(mem, t, va) in mem
  }

  /** s is what user code sees from va on. */
  ghost predicate Seen(mem: Ram, t: Tables, va: nat, s: seq<byte>)
  {
    forall a: nat :: va <= a < va + |s| ==> UserMapped(mem, t, a) && UserByte(mem, t, a) == s[a - va]
  }

  /** Addresses in the same page have the same page behind them. */
  lemma SamePageBehind(mem: Ram, t: Tables, a: nat, b: nat)
    requires a / PGSIZE == b / PGSIZE
    ensures UserPage(mem, t, a) == UserPage(mem, t, b)
  {
    hide LeafPte, PteV, PteU, PtePage;
    SameSide(a, b);
  }

  lemma SameSide(a: nat, b: nat)
    requires a / PGSIZE == b / PGSIZE
    ensures a >= MAXVA <==> b >= MAXVA
  {
  }

  lemma SeenMore(mem: Ram, t: Tables, va: nat, s: seq<byte>, p: nat, m: nat)
    requires Seen(mem, t, va, s) && (va + |s|) % PGSIZE + m <= PGSIZE
    requires p == UserPage(mem, t, va + |s|) && p != 0 && p in mem
    ensures var at := (va + |s|) % PGSIZE; Seen(mem, t, va, s + mem[p][at..at + m])
  {
    hide UserPage;
    var cur := va + |s|;
    var at := cur % PGSIZE;
    var s' := s + mem[p][at..at + m];
    forall a: nat | va <= a < va + |s'| ensures UserMapped(mem, t, a) && UserByte(mem, t, a) == s'[a - va] {
      if a >= cur {
        assert a / PGSIZE == cur / PGSIZE && a % PGSIZE == at + (a - cur);
        SamePageBehind(mem, t, a, cur);
      }
    }
  }

  /** Copy len bytes from user address srcva; dst is what was copied before the first page
      that user code cannot reach. */
  method Copyin(k: Kmem, pagetable: nat, srcva: nat, len: nat, ghost t: Tables) returns (r: int, dst: seq<byte>)
    requires Ready(k, t) && t[ROOT] == pagetable && Backed(k.mem, t)
    modifies k
    ensures unchanged(k) && |dst| <= len && Seen(k.mem, t, srcva, dst)
    ensures r == if |dst| == len then 0 else -1
    ensures |dst| < len ==> !UserMapped(k.mem, t, srcva + |dst|)
  {
    hide UserPage, UserByte, Ready, Seen;
    dst := [];
    SeenNothing(k.mem, t, srcva);
    while |dst| < len
      invariant |dst| <= len && unchanged(k) && Seen(k.mem, t, srcva, dst)
    {
      var cur := srcva + |dst|;
      var va0 := PGSIZE * (cur / PGSIZE);
      SamePageBehind(k.mem, t, va0, cur);
      var page := Walkaddr(k, pagetable, va0, t);
      if page == 0 { return -1, dst; }
      var at := cur - va0;
      var n := if PGSIZE - at > len - |dst| then len - |dst| else PGSIZE - at;
      SeenMore(k.mem, t, srcva, dst, page, n);
      dst := dst + k.mem[page][at..at + n];
    }
    r := 0;
  }

  lemma SeenNothing(mem: Ram, t: Tables, va: nat)
    ensures Seen(mem, t, va, [])
  {
  }

  /** Copyin succeeds exactly when user code can reach every byte asked for. */
  lemma CopyinIff(mem: Ram, t: Tables, srcva: nat, len: nat, dst: seq<byte>)
    requires |dst| <= len && Seen(mem, t, srcva, dst)
    requires |dst| < len ==> !UserMapped(mem, t, srcva + |dst|)
    ensures |dst| == len <==> forall a: nat :: srcva <= a < srcva + len ==> UserMapped(mem, t, a)
  {
  }

  // ---- Strings ----------------------------------------------------------

  /** The n bytes at va are mapped, and the first NUL among them is the last. */
  ghost predicate StringAt(mem: Ram, t: Tables, va: nat, s: seq<byte>)
  {
    Seen(mem, t, va, s) && |s| > 0 && s[|s| - 1] == 0 && 0 !in s[..|s| - 1]
  }

  /** The inner loop of copyinstr: bytes of one page up to a NUL. */
  method CopyPage(data: Page, at: nat, n: nat) returns (got: bool, part: seq<byte>)
    requires at + n <= PGSIZE
    ensures |part| <= n && part == data[at..at + |part|]
    ensures got ==> |part| > 0 && part[|part| - 1] == 0 && 0 !in part[..|part| - 1]
    ensures !got ==> |part| == n && 0 !in part
  {
    part := [];
    while |part| < n
      invariant |part| <= n && part == data[at..at + |part|] && 0 !in part
    {
      var c := data[at + |part|];
      part := part + [c];
      if c == 0 { return true, part; }
    }
    got := false;
  }

  /** Copy a string of at most max bytes, the NUL included. */
  method Copyinstr(k: Kmem, pagetable: nat, srcva: nat, max: nat, ghost t: Tables) returns (r: int, dst: seq<byte>)
    requires Ready(k, t) && t[ROOT] == pagetable && Backed(k.mem, t)
    modifies k
    ensures unchanged(k) && |dst| <= max && Seen(k.mem, t, srcva, dst)
    ensures r == 0 || r == -1
    ensures r == 0 ==> StringAt(k.mem, t, srcva, dst)
    ensures r == -1 ==> 0 !in dst && (|dst| < max ==> !UserMapped(k.mem, t, srcva + |dst|))
  {
    hide UserPage, UserByte, Ready, Seen;
    dst := [];
    SeenNothing(k.mem, t, srcva);
    while |dst| < max
      invariant |dst| <= max && unchanged(k) && Seen(k.mem, t, srcva, dst) && 0 !in dst
    {
      var cur := srcva + |dst|;
      var va0 := PGSIZE * (cur / PGSIZE);
      SamePageBehind(k.mem, t, va0, cur);
      var page := Walkaddr(k, pagetable, va0, t);
      if page == 0 { return -1, dst; }
      var at := cur - va0;
      var n := if PGSIZE - at > max - |dst| then max - |dst| else PGSIZE - at;
      var got, part := CopyPage(k.mem[page], at, n);
      SeenMore(k.mem, t, srcva, dst, page, |part|);
      ghost var before := dst;
      dst := dst + part;
      if got {
        assert dst[..|dst| - 1] == before + part[..|part| - 1];
        return 0, dst;
      }
    }
    r := -1;
  }

  ghost predicate NulWithin(mem: Ram, t: Tables, va: nat, n: nat)
  {
    UserByte(mem, t, va + n) == 0 && forall a: nat :: va <= a <= va + n ==> UserMapped(mem, t, a)
  }

  /** copyinstr returns 0 exactly when a NUL lies within max bytes and every byte up to it is mapped. */
  lemma CopyinstrIff(mem: Ram, t: Tables, va: nat, max: nat, r: int, dst: seq<byte>)
    requires |dst| <= max && Seen(mem, t, va, dst) && (r == 0 || r == -1)
    requires r == 0 ==> StringAt(mem, t, va, dst)
    requires r == -1 ==> 0 !in dst && (|dst| < max ==> !UserMapped(mem, t, va + |dst|))
    ensures r == 0 <==> exists n: nat :: n < max && NulWithin(mem, t, va, n)
  {
    hide UserPage, UserByte;
    if r == 0 {
      var n := |dst| - 1;
      assert UserMapped(mem, t, va + n) && UserByte(mem, t, va + n) == dst[n];
      assert NulWithin(mem, t, va, n);
    } else {
      forall n: nat | n < max ensures !NulWithin(mem, t, va, n) {
        if n < |dst| { assert UserMapped(mem, t, va + n) && UserByte(mem, t, va + n) == dst[n]; }
      }
    }
  }

  // ---- Writing user memory ----------------------------------------------

  /** Pages that user code can reach are in RAM, outside the pool, and behind one virtual page only. */
  ghost predicate OwnPages(mem: Ram, pool: set<nat>, t: Tables)
  {
    && Backed(mem, t)
    && (forall va: nat :: UserMapped(mem, t, va) ==> UserPage(mem, t, va) !in pool)
    && (forall va: nat, vb: nat :: OnePageBehind(mem, t, va, vb))
  }

  ghost predicate OnePageBehind(mem: Ram, t: Tables, va: nat, vb: nat)
  {
    UserMapped(mem, t, va) && UserPage(mem, t, va) == UserPage(mem, t, vb) ==> va / PGSIZE == vb / PGSIZE
  }

  /** User memory holds s at va and is otherwise as it was; so are the entries. */
  ghost predicate Wrote(m0: Ram, m1: Ram, t: Tables, va: nat, s: seq<byte>)
  {
    && m1.Keys == m0.Keys
    && (forall a: nat :: UserPage(m1, t, a) == UserPage(m0, t, a))
    && (forall a: nat :: UserMapped(m0, t, a) ==>
          UserByte(m1, t, a) == if va <= a < va + |s| then s[a - va] else UserByte(m0, t, a))
  }

  /** Page p is behind some address that user code can reach. */
  ghost predicate BehindUser(mem: Ram, t: Tables, p: nat)
  {
    exists va: nat :: UserMapped(mem, t, va) && UserPage(mem, t, va) == p
  }

  /** Only pages that user code can reach have changed. */
  ghost predicate OnlyUser(m0: Ram, m1: Ram, t: Tables)
  {
    m1.Keys == m0.Keys && forall p :: p in m0 && !BehindUser(m0, t, p) ==> m1[p] == m0[p]
  }

  lemma OnlyUserTwice(m0: Ram, m1: Ram, m2: Ram, t: Tables, va: nat, s: seq<byte>)
    requires OnlyUser(m0, m1, t) && OnlyUser(m1, m2, t) && Wrote(m0, m1, t, va, s)
    ensures OnlyUser(m0, m2, t)
  {
    hide UserPage, UserByte;
    forall p | !BehindUser(m0, t, p) ensures !BehindUser(m1, t, p) { }
  }

  function PatchPage(d: Page, at: nat, s: seq<byte>): (r: Page)
    requires at + |s| <= PGSIZE
  {
    d[..at] + s + d[at + |s|..]
  }

  lemma PatchUser(mem: Ram, pool: set<nat>, t: Tables, va: nat, s: seq<byte>, p: nat)
    requires TablesOk(mem, t) && OwnPages(mem, pool, t) && Pages(t) <= pool
    requires p == UserPage(mem, t, va) && p != 0 && va % PGSIZE + |s| <= PGSIZE
    ensures p in mem && p !in pool
    ensures var m1 := mem[p := PatchPage(mem[p], va % PGSIZE, s)];
            TablesOk(m1, t) && Wrote(mem, m1, t, va, s) && SameLeaves(mem, t, m1, t)
  {
    hide LeafPte, TablesOk;
    assert UserMapped(mem, t, va);
    var m1 := mem[p := PatchPage(mem[p], va % PGSIZE, s)];
    TablesFrame(mem, m1, t);
    UserPageSame(mem, m1, t);
    forall a: nat | UserMapped(mem, t, a)
      ensures UserByte(m1, t, a) == if va <= a < va + |s| then s[a - va] else UserByte(mem, t, a)
    {
      PatchedByte(mem, m1, t, va, s, p, a);
    }
  }

  lemma UserPageSame(m0: Ram, m1: Ram, t: Tables)
    requires SameLeaves(m0, t, m1, t)
    ensures forall a: nat :: UserPage(m1, t, a) == UserPage(m0, t, a)
  {
    hide LeafPte;
  }

  lemma PatchedByte(m0: Ram, m1: Ram, t: Tables, va: nat, s: seq<byte>, p: nat, a: nat)
    requires p == UserPage(m0, t, va) && p != 0 && p in m0 && va % PGSIZE + |s| <= PGSIZE
    requires m1 == m0[p := PatchPage(m0[p], va % PGSIZE, s)]
    requires UserPage(m1, t, a) == UserPage(m0, t, a) && UserMapped(m0, t, a) && UserPage(m0, t, a) in m0
    requires OnePageBehind(m0, t, va, a)
    ensures UserByte(m1, t, a) == if va <= a < va + |s| then s[a - va] else UserByte(m0, t, a)
  {
    hide LeafPte;
    if UserPage(m0, t, a) == p {
      assert a / PGSIZE == va / PGSIZE;
      assert a % PGSIZE - va % PGSIZE == a - va;
    } else if va <= a < va + |s| {
      assert a / PGSIZE == va / PGSIZE;
      SamePageBehind(m0, t, a, va);
    }
  }

  lemma WroteMore(m0: Ram, m1: Ram, m2: Ram, t: Tables, va: nat, s: seq<byte>, d: seq<byte>)
    requires Wrote(m0, m1, t, va, s) && Wrote(m1, m2, t, va + |s|, d)
    ensures Wrote(m0, m2, t, va, s + d)
  {
    hide UserPage, UserByte;
    forall a: nat | UserMapped(m0, t, a)
      ensures UserByte(m2, t, a) == if va <= a < va + |s + d| then (s + d)[a - va] else UserByte(m0, t, a)
    {
      assert UserPage(m1, t, a) == UserPage(m0, t, a);
      assert UserMapped(m1, t, a);
    }
  }

  lemma OwnPagesKept(m0: Ram, m1: Ram, pool: set<nat>, t: Tables, va: nat, s: seq<byte>)
    requires OwnPages(m0, pool, t) && Wrote(m0, m1, t, va, s)
    ensures OwnPages(m1, pool, t)
  {
    hide UserPage, UserByte;
    forall a: nat, b: nat ensures OnePageBehind(m1, t, a, b) {
      assert OnePageBehind(m0, t, a, b);
      assert UserPage(m1, t, a) == UserPage(m0, t, a) && UserPage(m1, t, b) == UserPage(m0, t, b);
    }
  }

  lemma WroteNothing(mem: Ram, t: Tables, va: nat)
    ensures Wrote(mem, mem, t, va, []) && SameLeaves(mem, t, mem, t) && OnlyUser(mem, mem, t)
  {
  }

  /** memmove into the page behind a user address. */
  method WritePage(k: Kmem, page: nat, va: nat, s: seq<byte>, ghost t: Tables)
    requires Ready(k, t) && OwnPages(k.mem, Pool(k.free, t), t)
    requires page == UserPage(k.mem, t, va) && page != 0 && va % PGSIZE + |s| <= PGSIZE
    modifies k
    ensures Ready(k, t) && k.free == old(k.free) && OwnPages(k.mem, Pool(k.free, t), t)
    ensures Wrote(old(k.mem), k.mem, t, va, s) && SameLeaves(old(k.mem), t, k.mem, t) && OnlyUser(old(k.mem), k.mem, t)
  {
    hide TablesOk, LeafPte, UserPage, OwnPages, Wrote, SameLeaves, Chained;
    assert UserMapped(k.mem, t, va) && BehindUser(k.mem, t, page);
    PoolHas(k.free, t);
    PatchUser(k.mem, Pool(k.free, t), t, va, s, page);
    ghost var m1 := k.mem[page := PatchPage(k.mem[page], va % PGSIZE, s)];
    assert page !in Elems(k.free);
    ChainFrame(k.mem, m1, k.free);
    OwnPagesKept(k.mem, m1, Pool(k.free, t), t, va, s);
    k.mem := k.mem[page := PatchPage(k.mem[page], va % PGSIZE, s)];
  }

  /** Copy src to user address dstva: n bytes are written, all of them unless user code
      cannot reach some page. */
  method Copyout(k: Kmem, pagetable: nat, dstva: nat, src: seq<byte>, ghost t: Tables) returns (r: int, ghost n: nat)
    requires Ready(k, t) && t[ROOT] == pagetable && OwnPages(k.mem, Pool(k.free, t), t)
    modifies k
    ensures Ready(k, t) && k.free == old(k.free) && n <= |src|
    ensures Wrote(old(k.mem), k.mem, t, dstva, src[..n]) && SameLeaves(old(k.mem), t, k.mem, t)
    ensures OnlyUser(old(k.mem), k.mem, t)
    ensures forall a: nat :: dstva <= a < dstva + n ==> UserMapped(old(k.mem), t, a)
    ensures r == if n == |src| then 0 else -1
    ensures n < |src| ==> !UserMapped(old(k.mem), t, dstva + n)
  {
    hide UserPage, Ready, OwnPages, Wrote, SameLeaves, UserMapped, Pool, OnlyUser;
    var done := 0;
    n := 0;
    WroteNothing(k.mem, t, dstva);
    assert src[..0] == [];
    while done < |src|
      invariant done <= |src|
      invariant Ready(k, t) && k.free == old(k.free) && OwnPages(k.mem, Pool(k.free, t), t)
      invariant Wrote(old(k.mem), k.mem, t, dstva, src[..done]) && SameLeaves(old(k.mem), t, k.mem, t)
      invariant OnlyUser(old(k.mem), k.mem, t)
      invariant forall a: nat :: dstva <= a < dstva + done ==> UserMapped(old(k.mem), t, a)
    {
      var cur := dstva + done;
      var va0 := PGSIZE * (cur / PGSIZE);
      ghost var m1 := k.mem;
      SamePageBehind(m1, t, va0, cur);
      MappedBefore(old(k.mem), m1, t, dstva, src[..done], cur);
      var page := Walkaddr(k, pagetable, va0, t);
      if page == 0 { return -1, done; }
      var at := cur - va0;
      var m := if PGSIZE - at > |src| - done then |src| - done else PGSIZE - at;
      RestMapped(old(k.mem), t, cur, m);
      WritePage(k, page, cur, src[done..done + m], t);
      assert src[..done + m] == src[..done] + src[done..done + m];
      OnlyUserTwice(old(k.mem), m1, k.mem, t, dstva, src[..done]);
      WroteMore(old(k.mem), m1, k.mem, t, dstva, src[..done], src[done..done + m]);
      LeavesTwice(old(k.mem), m1, k.mem, t);
      done := done + m;
    }
    r, n := 0, done;
  }

  lemma MappedBefore(m0: Ram, m1: Ram, t: Tables, va: nat, s: seq<byte>, cur: nat)
    requires Wrote(m0, m1, t, va, s)
    ensures UserMapped(m0, t, cur) <==> UserPage(m1, t, cur) != 0
  {
    hide UserPage, UserByte;
    assert UserPage(m1, t, cur) == UserPage(m0, t, cur);
  }

  lemma RestMapped(mem: Ram, t: Tables, cur: nat, m: nat)
    requires UserMapped(mem, t, cur) && cur % PGSIZE + m <= PGSIZE
    ensures forall a: nat :: cur <= a < cur + m ==> UserMapped(mem, t, a)
  {
    forall a: nat | cur <= a < cur + m ensures UserMapped(mem, t, a) {
      assert a / PGSIZE == cur / PGSIZE;
      SamePageBehind(mem, t, a, cur);
    }
  }

  lemma LeavesTwice(m0: Ram, m1: Ram, m2: Ram, t: Tables)
    requires SameLeaves(m0, t, m1, t) && SameLeaves(m1, t, m2, t)
    ensures SameLeaves(m0, t, m2, t)
  {
  }

  /** What copyout wrote, copyin reads back. */
  lemma CopyRoundTrip(m0: Ram, m1: Ram, t: Tables, va: nat, src: seq<byte>, dst: seq<byte>)
    requires Wrote(m0, m1, t, va, src) && (forall a: nat :: va <= a < va + |src| ==> UserMapped(m0, t, a))
    requires |dst| <= |src| && Seen(m1, t, va, dst) && (|dst| < |src| ==> !UserMapped(m1, t, va + |dst|))
    ensures dst == src
  {
    hide UserPage, UserByte;
    forall a: nat | va <= a < va + |src| ensures UserMapped(m1, t, a) && UserByte(m1, t, a) == src[a - va] {
      assert UserMapped(m0, t, a);
      assert UserPage(m1, t, a) == UserPage(m0, t, a);
    }
    forall i | 0 <= i < |dst| ensures dst[i] == src[i] { assert UserMapped(m1, t, va + i); }
  }

  /** An address space whose trapframe and trampoline are closed to user code has its pages to itself. */
  lemma SpaceOwnsPages(k: Kmem, t: Tables, n: nat)
    requires Space(k, t, n) && forall v: nat :: USERTOP <= v < MAXVPN ==> !PteU(LeafPte(k.mem, t, v))
    ensures OwnPages(k.mem, Pool(k.free, t), t)
  {
    hide LeafPte, TablesOk, PteU, PteV, Pool;
    var mem, pool := k.mem, Pool(k.free, t);
    forall va: nat | UserMapped(mem, t, va)
      ensures va / PGSIZE < n && UserPage(mem, t, va) == Frame(mem, t, va / PGSIZE) &&
                FrameOk(mem, pool, t, va / PGSIZE)
    {
      UserVpn(mem, t, va, n);
      assert FrameOk(mem, pool, t, va / PGSIZE);
    }
    forall va: nat, vb: nat ensures OnePageBehind(mem, t, va, vb) {
      if UserMapped(mem, t, va) && UserMapped(mem, t, vb) && va / PGSIZE != vb / PGSIZE {
        assert Frame(mem, t, va / PGSIZE) != Frame(mem, t, vb / PGSIZE);
      }
    }
  }

  lemma UserVpn(mem: Ram, t: Tables, va: nat, n: nat)
    requires UserMapped(mem, t, va) && Clear(mem, t, n, USERTOP)
    requires forall v: nat :: USERTOP <= v < MAXVPN ==> !PteU(LeafPte(mem, t, v))
    ensures va < MAXVA && va / PGSIZE < n && UserPage(mem, t, va) == Frame(mem, t, va / PGSIZE)
  {
    hide LeafPte;
    assert va / PGSIZE < MAXVPN;
  }
}
