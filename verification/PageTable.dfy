/** Sv39 page tables of kernel/vm.c: a three-level radix tree in raw pages
    (section 4.4 of the RISC-V Privileged Architecture).

    The ghost map `t` names the page of every table by its place in the tree:
    level 2 is the root, and entry k of the table at (level, index) leads to
    the table at (level - 1, 512 * index + k).  The table at (0, j) holds the
    entries of virtual pages 512 * j .. 512 * j + 511.
 */
module PageTable {
  import opened Words
  import opened PageAllocator

  const MAXVA: nat := 0x40_0000_0000  // one beyond the highest virtual address
  const MAXVPN: nat := 0x400_0000     // MAXVA / PGSIZE

  datatype Place = Place(level: nat, index: nat)

  type Tables = map<Place, nat>

  const ROOT: Place := Place(2, 0)

  function Child(pl: Place, k: nat): (c: Place)
    requires pl.level > 0
  {
    Place(pl.level - 1, 512 * pl.index + k)
  }

  function Parent(pl: Place): (q: Place)
  {
    Place(pl.level + 1, pl.index / 512)
  }

  /** The index of level `level` in a virtual address: PX(level, va). */
  function Px(level: nat, va: nat): (k: nat)
    requires level <= 2
    ensures k < 512
  {
    if level == 2 then va / 0x4000_0000 % 512
    else if level == 1 then va / 0x20_0000 % 512
    else va / 0x1000 % 512
  }

  // Page-table entries: page number shifted left by ten, and ten flag bits.

  function MkPte(p: nat, flags: nat): (e: nat) { 1024 * p + flags }
  function PtePage(e: nat): (p: nat) { e / 1024 }
  function PteFlags(e: nat): (f: nat) { e % 1024 }
  predicate PteV(e: nat) { e % 2 == 1 }
  predicate PteLeaf(e: nat) { e / 2 % 8 != 0 }  // R, W or X is set
  predicate PteU(e: nat) { e / 16 % 2 == 1 }
  predicate PteMapped(e: nat) { PteV(e) && PteFlags(e) != 1 }  // what uvmunmap asks for

  lemma TablePte(p: nat)
    ensures PteV(MkPte(p, 1)) && PtePage(MkPte(p, 1)) == p && !PteLeaf(MkPte(p, 1)) && !PteV(0)
  {
    assert (1024 * p + 1) / 2 == 8 * (64 * p);
  }

  lemma PteParts(p: nat, flags: nat)
    requires flags < 1024
    ensures PtePage(MkPte(p, flags)) == p && PteFlags(MkPte(p, flags)) == flags
    ensures PteV(MkPte(p, flags)) <==> flags % 2 == 1
  {
    assert 1024 * p + flags == 2 * (512 * p) + flags;
  }

  /** perm | PTE_V */
  function WithV(perm: nat): (f: nat) { if perm % 2 == 1 then perm else perm + 1 }

  /** Tables for addresses below MAXVA; it is half of what Sv39 can address. */
  predicate InTree(pl: Place)
  {
    (pl.level == 2 && pl.index == 0) || (pl.level == 1 && pl.index < 256) || (pl.level == 0 && pl.index < 0x2_0000)
  }

  ghost predicate PlaceOk(t: Tables, pl: Place)
  {
    InTree(pl) && (pl.level < 2 ==> Parent(pl) in t)
  }

  /** A page holds at most one table. */
  ghost predicate OnePlace(t: Tables, a: Place, b: Place)
    requires a in t && b in t
  {
    t[a] == t[b] ==> a == b
  }

  /** Entry k of an upper table is zero or leads to the table below it; an entry of a
      bottom table is zero or valid. */
  ghost predicate EntryOk(mem: Ram, t: Tables, pl: Place, k: nat)
    requires pl in t && t[pl] in mem && k < 512
  {
    var e := Quad(mem[t[pl]], k);
    if pl.level > 0 then e == if Child(pl, k) in t then MkPte(t[Child(pl, k)], 1) else 0
    else e == 0 || PteV(e)
  }

  ghost predicate TablesOk(mem: Ram, t: Tables)
    ensures TablesOk(mem, t) ==> ROOT in t && forall pl :: pl in t ==> 0 < t[pl] < PHYSTOP_PAGE && t[pl] in mem
  {
    && ROOT in t
    && (forall pl :: pl in t ==> 0 < t[pl] < PHYSTOP_PAGE && t[pl] in mem)
    && (forall pl {:trigger PlaceOk(t, pl)} :: pl in t ==> PlaceOk(t, pl))
    && (forall a, b {:trigger OnePlace(t, a, b)} :: a in t && b in t ==> OnePlace(t, a, b))
    && (forall pl, k: nat :: pl in t && k < 512 ==> EntryOk(mem, t, pl, k))
  }

  /** The entry of virtual page v; 0 when there is no table for it. */
  function LeafPte(mem: Ram, t: Tables, v: nat): (e: nat)
  {
    var pl := Place(0, v / 512);
    if pl in t && t[pl] in mem then Quad(mem[t[pl]], v % 512) else 0
  }

  /** The page table as a finite map from virtual page to entry. */
  ghost function Mapping(mem: Ram, t: Tables): (m: map<nat, nat>)
    ensures forall v: nat :: v in m <==> v < MAXVPN && PteV(LeafPte(mem, t, v))
    ensures forall v: nat :: v in m ==> m[v] == LeafPte(mem, t, v)
  {
    map v: nat | v < MAXVPN && PteV(LeafPte(mem, t, v)) :: LeafPte(mem, t, v)
  }

  ghost predicate SameLeaves(mem: Ram, t: Tables, mem': Ram, t': Tables)
  {
    forall v: nat :: v < MAXVPN ==> LeafPte(mem', t', v) == LeafPte(mem, t, v)
  }

  // ---- Changing memory --------------------------------------------------

  /** Pages outside s are as they were. */
  ghost predicate Touched(mem: Ram, mem': Ram, s: set<nat>)
  {
    mem'.Keys == mem.Keys && forall p :: p in mem && p !in s ==> mem'[p] == mem[p]
  }

  ghost function Pages(t: Tables): (s: set<nat>)
    ensures forall pl :: pl in t ==> t[pl] in s
    ensures forall p :: p in s ==> exists pl :: pl in t && t[pl] == p
  {
    set pl | pl in t :: t[pl]
  }

  lemma TablesFrame(mem: Ram, mem': Ram, t: Tables)
    requires TablesOk(mem, t) && forall pl :: pl in t ==> t[pl] in mem' && mem'[t[pl]] == mem[t[pl]]
    ensures TablesOk(mem', t) && SameLeaves(mem, t, mem', t)
  {
    hide Quad;
    forall pl | pl in t ensures PlaceOk(t, pl) { assert PlaceOk(t, pl); }
    forall pl, k: nat | pl in t && k < 512 ensures EntryOk(mem', t, pl, k) { assert EntryOk(mem, t, pl, k); }
  }

  /** Store a new, zeroed table page p into entry k of the table at pl. */
  function Grown(mem: Ram, t: Tables, pl: Place, k: nat, p: nat): (mem': Ram)
    requires pl in t && t[pl] in mem && k < 512 && p < PHYSTOP_PAGE
  {
    var parent: Page := SetQuad(mem[t[pl]], k, MkPte(p, 1));
    mem[p := Zeroes(PGSIZE)][t[pl] := parent]
  }

  lemma GrownPlaces(mem: Ram, t: Tables, pl: Place, k: nat, p: nat)
    requires TablesOk(mem, t) && pl in t && pl.level > 0 && k < 512 && Child(pl, k) !in t
    requires 0 < p < PHYSTOP_PAGE && p in mem && InTree(Child(pl, k))
    ensures var t' := t[Child(pl, k) := p]; forall a {:trigger PlaceOk(t', a)} :: a in t' ==> PlaceOk(t', a)
  {
    ChildUnique(pl, k, pl, k);
    hide Quad, EntryOk, OnePlace, Child, Parent, InTree;
    var t' := t[Child(pl, k) := p];
    forall a | a in t' ensures PlaceOk(t', a) {
      if a != Child(pl, k) { assert PlaceOk(t, a); }
    }
  }

  lemma GrownApart(mem: Ram, t: Tables, c: Place, p: nat)
    requires TablesOk(mem, t) && p !in Pages(t)
    ensures var t' := t[c := p]; forall a, b {:trigger OnePlace(t', a, b)} :: a in t' && b in t' ==> OnePlace(t', a, b)
  {
    hide Quad, EntryOk, PlaceOk;
    var t' := t[c := p];
    forall a, b | a in t' && b in t' ensures OnePlace(t', a, b) {
      if a in t && b in t { assert OnePlace(t, a, b); }
    }
  }

  /** Two entries lead to the same place only if they are the same entry. */
  lemma ChildUnique(a: Place, j: nat, b: Place, k: nat)
    requires a.level > 0 && b.level > 0 && j < 512 && k < 512
    ensures Parent(Child(a, j)) == a
    ensures Child(a, j) == Child(b, k) ==> a == b && j == k
  {
  }

  /** A place that is not in the tree has nothing below it. */
  lemma NothingBelow(mem: Ram, t: Tables, c: Place, j: nat)
    requires TablesOk(mem, t) && c !in t && 0 < c.level <= 2 && j < 512
    ensures Child(c, j) !in t
  {
    ChildUnique(c, j, c, j);
    assert Child(c, j) in t ==> PlaceOk(t, Child(c, j));
  }

  lemma LevelBound(mem: Ram, t: Tables, pl: Place)
    requires TablesOk(mem, t) && pl in t
    ensures InTree(pl) && pl.level <= 2
  {
    assert PlaceOk(t, pl);
  }

  lemma GrownEntry(mem: Ram, t: Tables, pl: Place, k: nat, p: nat, a: Place, j: nat)
    requires TablesOk(mem, t) && pl in t && pl.level > 0 && k < 512 && Child(pl, k) !in t
    requires 0 < p < PHYSTOP_PAGE && p in mem && p !in Pages(t)
    requires a in t && j < 512
    ensures var t', mem' := t[Child(pl, k) := p], Grown(mem, t, pl, k, p);
            t'[a] in mem' && EntryOk(mem', t', a, j)
  {
    hide Quad, PlaceOk, Child;
    assert OnePlace(t, a, pl) && EntryOk(mem, t, a, j);
    if a.level > 0 { ChildUnique(a, j, pl, k); }
  }

  lemma GrownEntries(mem: Ram, t: Tables, pl: Place, k: nat, p: nat)
    requires TablesOk(mem, t) && pl in t && pl.level > 0 && k < 512 && Child(pl, k) !in t
    requires 0 < p < PHYSTOP_PAGE && p in mem && p !in Pages(t)
    ensures var t', mem' := t[Child(pl, k) := p], Grown(mem, t, pl, k, p);
            forall a, j: nat :: a in t' && j < 512 ==> t'[a] in mem' && EntryOk(mem', t', a, j)
  {
    hide Quad, TablesOk, Parent;
    var c := Child(pl, k);
    var t', mem' := t[c := p], Grown(mem, t, pl, k, p);
    LevelBound(mem, t, pl);
    forall a, j: nat | a in t' && j < 512 ensures t'[a] in mem' && EntryOk(mem', t', a, j) {
      if a in t {
        GrownEntry(mem, t, pl, k, p, a, j);
      } else if c.level > 0 {
        NothingBelow(mem, t, c, j);
      }
    }
  }

  lemma GrownOk(mem: Ram, t: Tables, pl: Place, k: nat, p: nat)
    requires TablesOk(mem, t) && pl in t && pl.level > 0 && k < 512 && Child(pl, k) !in t
    requires 0 < p < PHYSTOP_PAGE && p in mem && p !in Pages(t) && InTree(Child(pl, k))
    ensures TablesOk(Grown(mem, t, pl, k, p), t[Child(pl, k) := p])
    ensures SameLeaves(mem, t, Grown(mem, t, pl, k, p), t[Child(pl, k) := p])
  {
    hide Quad, EntryOk, PlaceOk, OnePlace;
    var c := Child(pl, k);
    var t', mem' := t[c := p], Grown(mem, t, pl, k, p);
    GrownPlaces(mem, t, pl, k, p);
    GrownApart(mem, t, c, p);
    GrownEntries(mem, t, pl, k, p);
    forall v: nat | v < MAXVPN ensures LeafPte(mem', t', v) == LeafPte(mem, t, v) {
      var a := Place(0, v / 512);
      if a in t { GrownLeaf(t, a, pl); }
    }
  }

  lemma GrownLeaf(t: Tables, a: Place, pl: Place)
    requires a in t && pl in t && OnePlace(t, a, pl) && a.level == 0 && pl.level > 0
    ensures t[a] != t[pl]
  {
  }

  /** Memory with e as the entry of virtual page v. */
  function Stored(mem: Ram, t: Tables, v: nat, e: uint64): (mem': Ram)
    requires Place(0, v / 512) in t && t[Place(0, v / 512)] in mem
  {
    var p := t[Place(0, v / 512)];
    var page: Page := SetQuad(mem[p], v % 512, e);
    mem[p := page]
  }

  lemma StoredOk(mem: Ram, t: Tables, v: nat, e: uint64)
    requires TablesOk(mem, t) && v < MAXVPN && Place(0, v / 512) in t
    requires e == 0 || PteV(e)
    ensures TablesOk(Stored(mem, t, v, e), t)
    ensures forall w: nat :: w < MAXVPN ==>
              LeafPte(Stored(mem, t, v, e), t, w) == if w == v then e else LeafPte(mem, t, w)
  {
    hide Quad;
    var pl := Place(0, v / 512);
    var mem' := Stored(mem, t, v, e);
    forall a | a in t ensures PlaceOk(t, a) { assert PlaceOk(t, a); }
    forall a, k: nat | a in t && k < 512 ensures EntryOk(mem', t, a, k) {
      assert EntryOk(mem, t, a, k) && OnePlace(t, a, pl);
    }
    forall w: nat | w < MAXVPN ensures LeafPte(mem', t, w) == if w == v then e else LeafPte(mem, t, w) {
      var a := Place(0, w / 512);
      if a in t { assert OnePlace(t, a, pl); }
    }
  }

  /** The three indices of an address below MAXVA identify its virtual page. */
  lemma IndicesSplit(va: nat)
    requires va < MAXVA
    ensures Child(ROOT, Px(2, va)) == Place(1, va / PGSIZE / 512 / 512)
    ensures Child(Place(1, va / PGSIZE / 512 / 512), Px(1, va)) == Place(0, va / PGSIZE / 512)
    ensures Px(0, va) == va / PGSIZE % 512
    ensures va / PGSIZE < MAXVPN && InTree(Place(1, va / PGSIZE / 512 / 512)) && InTree(Place(0, va / PGSIZE / 512))
  {
  }

  lemma IndicesInjective(va: nat, wa: nat)
    requires va < MAXVA && wa < MAXVA
    ensures Px(2, va) == Px(2, wa) && Px(1, va) == Px(1, wa) && Px(0, va) == Px(0, wa) <==> va / PGSIZE == wa / PGSIZE
  {
    IndicesSplit(va);
    IndicesSplit(wa);
  }
}
