/** The page tables of kernel/vm.c as the hardware reads them.

    The translation is that of Sv39, section 4.3.2 and section 4.4 of the RISC-V privileged
    architecture: three loads of eight bytes, from the root table down, stopping at the first entry
    that is invalid or a leaf.  It is defined on raw memory, without the tree that the kernel's
    operations are proved against.
 */
module Mmu {
  import opened Words
  import opened PageAllocator
  import opened PageTable
  import opened VirtualMemory

  /** The eight bytes at offset 8 * i of page p, low byte first; 0 outside RAM. */
  function Load(mem: Ram, p: nat, i: nat): (e: nat)
    requires i < 512
  {
    if p !in mem then 0
    else
      var b: seq<int> := mem[p][8 * i..8 * i + 8];
      b[0] + 0x100 * b[1] + 0x1_0000 * b[2] + 0x100_0000 * b[3]
      + 0x1_0000_0000 * (b[4] + 0x100 * b[5] + 0x1_0000 * b[6] + 0x100_0000 * b[7])
  }

  predicate Valid(e: nat) { e % 2 == 1 }

  /** R, W or X is set: the entry maps memory and does not lead to another table. */
  predicate Leaf(e: nat) { e / 2 % 8 != 0 }

  /** The table that a valid entry leads to, or the page that it maps. */
  function PageOf(e: nat): (p: nat) { e / 1024 }

  /** The leaf entry that translates va, and the size of the page that it maps; 0 is a page fault. */
  function Translate(mem: Ram, root: nat, va: nat): (r: (nat, nat))
  {
    var e2 := Load(mem, root, va / 0x4000_0000 % 512);
    if !Valid(e2) then (0, 0)
    else if Leaf(e2) then (e2, 0x4000_0000)
    else
      var e1 := Load(mem, PageOf(e2), va / 0x20_0000 % 512);
      if !Valid(e1) then (0, 0)
      else if Leaf(e1) then (e1, 0x20_0000)
      else
        var e0 := Load(mem, PageOf(e1), va / 0x1000 % 512);
        if Valid(e0) && Leaf(e0) then (e0, 0x1000) else (0, 0)
  }

  lemma LoadIsQuad(mem: Ram, p: nat, i: nat)
    requires p in mem && i < 512
    ensures Load(mem, p, i) == Quad(mem[p], i)
  {
    var d := mem[p];
    var b: seq<int>, lo: seq<int>, hi: seq<int> := d[8 * i..8 * i + 8], d[8 * i..8 * i + 4], d[8 * i + 4..8 * i + 8];
    assert lo == b[..4] && hi == b[4..];
    assert d[4 * (2 * i)..4 * (2 * i) + 4] == lo && d[4 * (2 * i + 1)..4 * (2 * i + 1) + 4] == hi;
  }

  /** One level: the entry is 0, or leads to the table below. */
  lemma StepDown(mem: Ram, t: Tables, pl: Place, i: nat)
    requires TablesOk(mem, t) && pl in t && pl.level > 0 && i < 512
    ensures var e := Load(mem, t[pl], i);
            && (Valid(e) <==> Child(pl, i) in t)
            && (Child(pl, i) in t ==> !Leaf(e) && PageOf(e) == t[Child(pl, i)])
  {
    hide Quad, Child, TablesOk;
    LoadIsQuad(mem, t[pl], i);
    UpperEntry(mem, t, pl, i);
    if Child(pl, i) in t { UpperNotLeaf(mem, t, pl, i); }
  }

  lemma UpperNotLeaf(mem: Ram, t: Tables, pl: Place, i: nat)
    requires TablesOk(mem, t) && pl in t && pl.level > 0 && i < 512 && Child(pl, i) in t
    ensures !Leaf(Quad(mem[t[pl]], i))
  {
    hide Quad, MkPte, Child;
    assert EntryOk(mem, t, pl, i);
    TablePte(t[Child(pl, i)]);
  }

  lemma LeafTable(mem: Ram, t: Tables, va: nat)
    requires TablesOk(mem, t) && va < MAXVA
    ensures Place(0, va / PGSIZE / 512) in t ==> Place(1, va / PGSIZE / 512 / 512) in t
  {
    if Place(0, va / PGSIZE / 512) in t { assert PlaceOk(t, Place(0, va / PGSIZE / 512)); }
  }

  /** For every address below MAXVA the hardware finds the entry that the kernel's operations are
      proved to keep, as a page of 4096 bytes, and faults where there is none. */
  lemma HardwareAgrees(mem: Ram, t: Tables, va: nat)
    requires TablesOk(mem, t) && va < MAXVA
    ensures var e := LeafPte(mem, t, va / PGSIZE);
            Translate(mem, t[ROOT], va) == if Valid(e) && Leaf(e) then (e, 0x1000) else (0, 0)
  {
    hide TablesOk, Child, Quad, Load;
    IndicesSplit(va);
    LeafTable(mem, t, va);
    var v := va / PGSIZE;
    StepDown(mem, t, ROOT, va / 0x4000_0000 % 512);
    if Place(1, v / 512 / 512) in t {
      StepDown(mem, t, Place(1, v / 512 / 512), va / 0x20_0000 % 512);
      if Place(0, v / 512) in t { LoadIsQuad(mem, t[Place(0, v / 512)], v % 512); }
    }
  }

  /** What a load by user code at va reads: the byte of the page that the translation names, if
      the entry is open to user mode and readable. */
  predicate UserLoads(mem: Ram, root: nat, va: nat, b: byte)
  {
    var (e, size) := Translate(mem, root, va);
    && e != 0 && e / 16 % 2 == 1 && e / 2 % 2 == 1
    && size == 0x1000 && PageOf(e) in mem && mem[PageOf(e)][va % 0x1000] == b
  }

  /** The bytes that copyin, copyout and copyinstr are stated with are those that user code loads. */
  lemma UserLoadsByte(mem: Ram, t: Tables, va: nat)
    requires TablesOk(mem, t) && va < MAXVA && UserMapped(mem, t, va) && UserPage(mem, t, va) in mem
    requires LeafPte(mem, t, va / PGSIZE) / 2 % 2 == 1
    ensures UserLoads(mem, t[ROOT], va, UserByte(mem, t, va))
  {
    hide TablesOk, LeafPte, Translate;
    HardwareAgrees(mem, t, va);
  }
}
