# xv6-riscv: a verified model

A Dafny model of the hard parts of the xv6 kernel and of three of its user-level
sources, with proofs. One module stands for one part of a source file.

- `RecencyList`, `BufferCache`: the buffer cache over an atomic-block disk (kernel/bio.c).
- `LogSpec`, `WriteAheadLog`, `GroupCommit`, `LogAdmission`: the redo log (kernel/log.c).
  `LogSpec` says what a disk recovers to; `WriteAheadLog` is the code over the cache;
  `GroupCommit` is the transition system of any interleaving of operations, commit steps,
  crashes and reboots; `LogAdmission` says that a caller of begin_op can always still be let in.
- `FsLayout`, `FileContent`, `FileSystem`, `OpenFile`, `DurableFile`, `DiskFormat`: block
  allocation, inode contents, fileread and filewrite (kernel/fs.c, kernel/file.c). A file is a
  byte sequence; a block has one owner. `DurableFile` puts a write through the log and the cache:
  a crash leaves whole chunks of it. `DiskFormat` reads the disk image as plain bytes at plain
  addresses.
- `PageAllocator`, `PageTable`, `Mmu`, `VirtualMemory`, `UserMemory`, `FreeWalk`, `CopyUser`,
  `AddressSpaces`: pages, Sv39 page tables in raw pages, address spaces and user copies
  (kernel/kalloc.c, kernel/vm.c). `Mmu` is the walk of the hardware. `AddressSpaces` is the whole machine: any number of address
  spaces over one free list, under any sequence of requests.
- `Processes`, `ProcessSteps`, `ProcessWakeups`, `ProcessFamily`: the process state machine
  (kernel/proc.c), that no wakeup is lost, and who is whose child.
- `Shell`, `ShellGrammar`: the shell's parser, and the language that it accepts (user/sh.c).
- `Umalloc`, `VirtioDisk`, `Grep`, `Pipe`: the user allocator, the disk driver and its device
  on shared rings, grep, and the pipe ring.
- `Words`, `Counting`, `Wrappers`: little-endian words in bytes, bitmaps, finite counting, and
  values that may be missing.

Conventions. Code that updates memory is a class or a method with `modifies`; what it does is
stated against a function of the old state. A panic is either shown unreachable, a
precondition that the callers in the source meet, or a result of its own. Things outside the
kernel are parameters: how many bytes of a user buffer can be copied (`readable`, `writable`),
what sbrk answers (`region`), how read splits its input (`sizes`). The disk device is a set of
steps of its own; the driver's methods call `Disk.Device`, which takes any number of them,
between their stores to shared memory. A thread that holds no lock can be interrupted and
preempted between any two of its steps. A sleeping caller is a method that returns and is
called again, or a step that is not enabled. `dafny verify dfyconfig.toml` checks everything.

Where code and comments differ, the model follows the code:

- kernel/param.h and begin_op reserve MAXOPBLOCKS blocks per operation, but the header takes one
  of the LOGSIZE blocks that mkfs gives the log, so log_write gives up at 29 blocks.
  `GroupCommit.PanicFreeIff` gives the exact condition: fewer than MAXOPBLOCKS new blocks per
  operation. `GroupCommit.FillUp` builds the run that panics otherwise.
- The comment of writei says that a short count means an error; the bytes of the chunk whose
  copy failed are in the cached block all the same, and `FileSystem.Writei` says so.
- grep stops at a line that does not fit into its buffer; `Grep.Printed` says so.
- copyout does not look at the write permission of a page, and neither does the model.

## Model

| member | source | states |
|---|---|---|
| `RecencyList.Recency.constructor` | kernel/bio.c:43-52 | The ring that binit builds holds every buffer exactly once, linked both ways. |
| `RecencyList.Recency.MoveToFront` | kernel/bio.c:126-133 | Unlinking a buffer and linking it behind the head keeps the ring a permutation of all buffers and puts this one first, the others in the order they had. |
| `RecencyList.LaterMoveFirst` | kernel/bio.c:117-137 | After any sequence of moves to the front, starting from any order, the buffer released later comes before the one released earlier: the order that bget scans backwards is that of least recent use. |
| `BufferCache.Cache.FindCached` | kernel/bio.c:66-73 | The forward scan finds the buffer of a block exactly when one has it. |
| `BufferCache.Cache.FindUnused` | kernel/bio.c:77-87 | The backward scan finds an unreferenced buffer with only referenced ones behind it in recency order. |
| `BufferCache.Cache.Bget` | kernel/bio.c:59-89 | A referenced buffer is never renamed: a cached copy gains a reference, or the least recently used unreferenced buffer takes the new identity; no block of a real device is in two buffers. |
| `BufferCache.Cache.Bread` | kernel/bio.c:93-103 | The caller sees the logical contents of the block whatever was evicted in between. |
| `BufferCache.Cache.Bwrite` | kernel/bio.c:107-112 | One disk write makes the disk agree with the logical contents of this block and changes no other. |
| `BufferCache.Cache.Brelse` | kernel/bio.c:117-137 | The lock and one reference go; an unreferenced buffer moves to the front; cached contents and the logical disk stay. |
| `BufferCache.Cache.Bpin` | kernel/bio.c:140-144 | A pinned buffer keeps a reference, so that its newer contents cannot be evicted. |
| `BufferCache.Cache.Bunpin` | kernel/bio.c:147-151 | The pin is given back once the disk has the contents. |
| `BufferCache.Roomy` | kernel/bio.c:77-88 | Fewer holders and pins than buffers leave a buffer that bget can take: its panic cannot happen. |
| `BufferCache.InvalidIsClean` | kernel/bio.c:97-101 | The block of a buffer that is not valid yet is up to date on disk, so reading it shows the logical contents. |
| `BufferCache.Disk.Write` | kernel/virtio_disk.c:204-280 | One block write is atomic and leaves every other block alone; the history of disk states grows by the new one. |
| `BufferCache.Cache.constructor` | kernel/bio.c:37-53 | All buffers start as block 0 of device 0, invalid; the logical disk is the disk. |
| `BufferCache.Cache.Recycle` | kernel/bio.c:78-86 | An unreferenced buffer takes a new identity and loses nothing: its old block is up to date on disk. |
| `BufferCache.Cache.LockAndFill` | kernel/bio.c:97-101 | Once locked the buffer holds the logical contents, read from disk if it was not valid. |
| `BufferCache.Cache.Modify` | kernel/log.c:206-214 | A holder of the buffer changes the logical contents of this block and of no other. |
| `BufferCache.HoldersAreOne` | kernel/bio.c:66-69 | No block of a real device is in two buffers. |
| `LogSpec.InstallRestarts` | kernel/log.c:69-83 | Installing from any state that a partial installation left gives the same disk as installing from the start. |
| `LogSpec.BeforeHeader` | kernel/log.c:179-203 | Until the header is written, recovery gives the home blocks as before the transaction. |
| `LogSpec.CommitPoint` | kernel/log.c:103-114 | From the header write on, recovery gives the home blocks as after the transaction. |
| `LogSpec.InstallingKeepsAll` | kernel/log.c:69-83 | Every state between two home writes still recovers to all of the transaction. |
| `LogSpec.ErasedKeepsAll` | kernel/log.c:103-123 | After the header is cleared the home blocks are all of the transaction and recovery changes nothing. |
| `LogSpec.CrashesDuringRecovery` | kernel/log.c:117-123 | Any number of crashes inside recovery, each at any block write, leads to the same recovered home blocks. |
| `LogSpec.CommitSurvivesCrashes` | kernel/log.c:68-123 | For every crash point of a commit and every chain of crashes in the recoveries after it, complete recovery gives exactly the blocks before or exactly those after, and those after once the header is out. |
| `WriteAheadLog.Log.constructor` | kernel/log.c:55-65 | initlog leaves a recovered disk, an empty log and an empty list. |
| `WriteAheadLog.Log.WriteLog` | kernel/log.c:179-191 | Entry i of the log is the cached contents of the i-th listed block; nothing outside the log region changes in any state on the way. |
| `WriteAheadLog.Log.WriteHead` | kernel/log.c:103-114 | One disk write stores the count and the block numbers; they read back as the list. |
| `WriteAheadLog.Log.EncodeHeader` | kernel/log.c:103-114 | The header block decodes to the list it was made from. |
| `WriteAheadLog.Log.DecodeHeader` | kernel/log.c:87-97 | The in-memory list is what the header block encodes. |
| `WriteAheadLog.Log.ReadHead` | kernel/log.c:87-97 | The in-memory list after boot is that of the disk. |
| `WriteAheadLog.Log.InstallTrans` | kernel/log.c:69-83 | The disk goes through exactly the installation trace; every listed block is home and unpinned at the end. |
| `WriteAheadLog.Log.Commit` | kernel/log.c:194-203 | The home blocks become the logical ones; every disk state on the way recovers to none or all, and to all from the header write on. |
| `WriteAheadLog.Log.RecoverFromLog` | kernel/log.c:117-123 | The disk becomes the recovered one through states that recover to it, and the log is empty. |
| `WriteAheadLog.Log.LogWrite` | kernel/log.c:215-235 | The block is in the list exactly once, and pinned. |
| `WriteAheadLog.Log.BeginOp` | kernel/log.c:127-142 | An operation is admitted exactly when no commit runs and the reservation of all running operations still fits; `LogAdmission` says that a waiting one can always get there. |
| `WriteAheadLog.Log.EndOp` | kernel/log.c:147-175 | The last operation commits everything that was logged; an earlier one only leaves. |
| `WriteAheadLog.Log.Transact` | kernel/log.c:127-235 | A whole operation on an idle log, as long as every log_write finds its guard satisfied: its updates reach the home blocks together or, after a crash, not at all. |
| `WriteAheadLog.CopyToLog` | kernel/log.c:183-190 | One round of write_log: one disk write puts the cached contents into the log block and changes no other. |
| `WriteAheadLog.CopyHome` | kernel/log.c:73-82 | One round of install_trans: one disk write puts the logged contents home; the block is unpinned unless recovering. |
| `WriteAheadLog.Log.FindEntry` | kernel/log.c:225-228 | The absorption scan finds the first entry for the block, if there is one. |
| `WriteAheadLog.Log.UpdateBlock` | kernel/log.c:205-235 | bread, modify, log_write and brelse change one logical block and keep it pinned. |
| `GroupCommit.RunInv` | kernel/log.c:127-203 | Every state of every interleaving of any number of operations, commit steps, crashes and reboots satisfies the invariant. |
| `GroupCommit.OperationsAreAtomic` | kernel/log.c:147-203 | In every reachable state recovery gives the replay of a set of writes that holds all or nothing of each operation. |
| `GroupCommit.EndNeverPanics` | kernel/log.c:147-175 | end_op never finds a commit running. |
| `GroupCommit.CommitIsUndisturbed` | kernel/log.c:155-175 | In every run, a step taken while a commit is under way, other than a crash, leaves the cache, the set of operations, which is empty, and the writes alone, and the list too unless it is the commit's own erase. |
| `GroupCommit.CommitFinishes` | kernel/log.c:194-203 | In every run, when a commit is over everything written so far is durable and the home blocks on disk are its replay. |
| `GroupCommit.Reservation` | kernel/log.c:127-142 | In every run whose operations add at most MAXOPBLOCKS blocks each, the list is duplicate-free and its length plus what the running operations may still add is at most LOGSIZE. |
| `GroupCommit.PanicFreeIff` | kernel/log.c:215-222 | With log.size = LOGSIZE, as mkfs makes it, log_write's size panic is unreachable if and only if operations add fewer than MAXOPBLOCKS blocks. |
| `GroupCommit.NextInv` | kernel/log.c:127-235 | Every step keeps the invariant. |
| `GroupCommit.FillUp` | kernel/log.c:220-221 | Operations that use their whole reservation lead to a list of any length up to the guard. |
| `LogAdmission.SettlingEnds` | kernel/log.c:127-175 | After any point of any run only a bounded number of steps can follow without a new operation, a new write or a crash. |
| `LogAdmission.WaitsForSomebody` | kernel/log.c:127-142 | A caller that begin_op does not admit waits for somebody who can take a step: a running operation, the commit or the recovery. |
| `LogAdmission.EventuallyAdmitted` | kernel/log.c:127-203 | From every state of every run, ends of operations, commit and recovery steps alone lead to a state in which begin_op admits its caller. |
| `FsLayout.BallocKeeps` | kernel/fs.c:65-86 | Marking and zeroing a free block disturbs no slot, no owner and no other bit. |
| `FsLayout.BfreeKeeps` | kernel/fs.c:90-103 | Clearing the bit of a block that no slot names keeps the bitmap exact; the bit was set. |
| `FsLayout.AttachDirect` | kernel/fs.c:383-386 | Storing a fresh block into a direct address gives it one owner and leaves every other slot as it was. |
| `FsLayout.AttachEntry` | kernel/fs.c:396-399 | The same for an entry of the indirect block. |
| `FsLayout.DetachIndirect` | kernel/fs.c:423-433 | Dropping the indirect address releases exactly the indirect block and the blocks it names. |
| `FileContent.MarkedIffNamedOnce` | kernel/fs.c:65-103 | Between operations a data block is marked in the bitmap if and only if exactly one slot of one inode names it. |
| `FileContent.PatchKeeps` | kernel/fs.c:498-505 | Writing part of one block changes these bytes of this file and no byte of any file besides. |
| `FileContent.PutInode` | kernel/fs.c:227-236 | The on-disk inode reads back as the one stored, and the other inodes of the block are as they were. |
| `FileSystem.FileSystem.Balloc` | kernel/fs.c:65-86 | The first free block, zeroed and marked; without one nothing changes and every bit is set. |
| `FileSystem.FileSystem.Bfree` | kernel/fs.c:90-103 | The bit is cleared and nothing else changes; "freeing free block" cannot happen. |
| `FileSystem.FileSystem.Bmap` | kernel/fs.c:378-405 | The block of a file position, allocated on the way if there is none; no byte of any file changes, and what is logged is bounded by the new block, its bitmap block, the indirect block and its bitmap block. |
| `FileSystem.FileSystem.Iupdate` | kernel/fs.c:222-237 | The inode on disk is the one in memory; all files and other inodes are as they were. |
| `FileSystem.FileSystem.Writei` | kernel/fs.c:487-517 | Rejected exactly when the offset lies past the end or the write past the largest size; otherwise the file is its old contents overlaid with the bytes that could be read, cut off at the size that counts complete chunks; other files, hole-freedom, block ownership and inode synchrony are kept, also when the source copy fails; the blocks logged are bounded, more tightly when the disk has one bitmap block; with a readable source the blocks change exactly as the logged writes, in order, say. |
| `FileSystem.FileSystem.Readi` | kernel/fs.c:456-477 | Past the end or on 32-bit overflow, 0 and no bytes; otherwise -1 exactly if the destination takes fewer bytes than asked for and than there are, or else all bytes asked for or all up to the end of the file; what is copied are the file's bytes from the offset on; nothing changes. |
| `FileSystem.FileSystem.Itrunc` | kernel/fs.c:410-437 | Exactly the blocks of the inode are freed, its size is 0, every other file has the contents it had. |
| `FileSystem.FirstMapped` | kernel/fs.c:456-517 | In a hole-free file the block of an unaligned offset up to the size is already allocated. |
| `FileSystem.FileSystem.ScanBlock` | kernel/fs.c:73-82 | The first clear bit of a bitmap block, or that all bits up to the end of the block or of the disk are set. |
| `FileSystem.FileSystem.Claim` | kernel/fs.c:76-80 | The bit is set and the block zeroed; both are logged. |
| `FileSystem.FileSystem.WriteChunk` | kernel/fs.c:498-506 | The bytes of one chunk are stored at their place and no other byte of any file changes; the block is logged unless the copy failed. |
| `FileSystem.FileSystem.FreeIndirect` | kernel/fs.c:423-433 | Exactly the indirect block and the blocks it names are freed. |
| `FileSystem.FileSystem.FreeDirect` | kernel/fs.c:416-421 | Exactly the direct blocks are freed. |
| `OpenFile.ChunkFitsReservation` | kernel/file.c:149-157 | A chunk of filewrite, at any offset, logs at most MAXOPBLOCKS blocks, and at most seven on a disk with one bitmap block. |
| `OpenFile.OpenFile.WriteTransaction` | kernel/file.c:158-169 | One transaction logs at most MAXOPBLOCKS distinct blocks, at most seven with one bitmap block, moves the offset by what was written, and with a readable source changes the blocks exactly as its logged writes say. |
| `OpenFile.OpenFile.Filewrite` | kernel/file.c:149-174 | n is returned exactly when nothing is to be written, or all of the source can be read and the write starts no later than the end of the file and ends within the largest file; the file is overlaid with what was stored and the offset advanced by the complete chunks. |
| `OpenFile.OverlayTwice` | kernel/file.c:152-174 | Two consecutive chunks are one write of both. |
| `OpenFile.OpenFile.Fileread` | kernel/file.c:120-124 | The bytes of the file from the offset on, as many as asked for or up to the end, -1 exactly if they do not fit; the offset moves on by what was read and nothing else changes. |
| `OpenFile.WriteThenRead` | kernel/file.c:120-174 | What filewrite wrote through one open file fileread gives through another at the same offset. |
| `OpenFile.ReadAll` | kernel/file.c:120-124 | Reading any number of bytes at a time until nothing comes gives exactly the file from the offset on. |
| `DurableFile.HomeShows` | kernel/fs.c:222-237 | A disk whose blocks outside the log are those of the file system shows every file with its contents. |
| `DurableFile.CommitIsAtomic` | kernel/log.c:194-203 | Every disk state of the commit of a file-system operation shows, after complete recovery and through any chain of crashes in it, exactly the old contents of all files or exactly the new ones. |
| `DurableFile.WriteDurably` | kernel/file.c:158-169 | One transaction of filewrite through log and cache. It is rejected exactly when the offset lies past the end or the write past the largest size, and then nothing changes; it fails otherwise only when every bit of the bitmap is set, and log, cache and disk are as before; or all bytes are written and the offset moves on by them: at the end the disk shows the files with the write, and every disk state on the way recovers to all files without it or all files with it. |
| `DurableFile.FilewriteNeverPanics` | kernel/file.c:149-157 | With one bitmap block, as mkfs makes the disk, filewrite's chunks stay within seven blocks each, and in every interleaving of operations that do log_write never panics. |
| `DurableFile.FilewriteDurably` | kernel/file.c:149-174 | filewrite as a whole, a transaction per chunk: n is returned exactly when the write lies within the file's reach; wherever the machine stops, and through any chain of crashes in recovery, the disk shows the file overlaid with a number of whole chunks of the source, or all of it, and every other file as it was. |
| `DiskFormat.FilesRead` | kernel/fs.h:29-45 | On a disk whose inodes are written back, the size at byte 8 of the 64-byte inode, the twelve block numbers behind it and the 256 of the indirect block, read as plain bytes, give exactly the contents of every file. |
| `DiskFormat.BitmapRead` | mkfs/mkfs.c:234-248 | The bit of a block is bit b mod 8 of byte b / 8 of the bitmap area. |
| `DiskFormat.WriteRead` | kernel/fs.h:29-45 | What a crash in the middle of a write leaves is, read as plain bytes, the file overlaid with the chunks that count. |
| `PageAllocator.Kmem.constructor` | kernel/kalloc.c:27-31 | After kinit the free list holds every page of RAM, each once. |
| `PageAllocator.Kmem.Freerange` | kernel/kalloc.c:34-40 | Exactly the whole pages between the two addresses join the free list. |
| `PageAllocator.Kmem.Kfree` | kernel/kalloc.c:47-63 | The page is filled and becomes the first of the list that runs through the free pages themselves. |
| `PageAllocator.Kmem.Kalloc` | kernel/kalloc.c:69-82 | The first free page, filled, and no longer on the list; 0 exactly when the list is empty. |
| `PageTable.IndicesInjective` | kernel/riscv.h:350-363 | Below MAXVA the three 9-bit indices agree if and only if the virtual pages are the same. |
| `PageTable.GrownOk` | kernel/vm.c:86-96 | Entering a zeroed table page keeps the tables a tree with every translation unchanged. |
| `PageTable.StoredOk` | kernel/vm.c:149-154 | Storing one leaf entry changes the translation of that page and no other. |
| `Mmu.HardwareAgrees` | kernel/vm.c:66-80 | For every address below MAXVA the walk that the hardware makes through the raw pages, three levels of 512 eight-byte entries, finds the entry that the kernel's operations are stated with, as that of a 4096-byte page, or faults where there is none. |
| `Mmu.UserLoadsByte` | kernel/riscv.h:341-363 | The bytes that copyin, copyout and copyinstr are stated with are the ones that user code loads at the address. |
| `VirtualMemory.Walk` | kernel/vm.c:81-98 | The table whose entry is that of va; with alloc missing tables come from the free list, without it nothing changes; every translation is kept and no page is lost. |
| `VirtualMemory.Walkaddr` | kernel/vm.c:104-121 | The page behind a user-accessible address, 0 for all others. |
| `VirtualMemory.Mappages` | kernel/vm.c:138-160 | The pages of the range are mapped to consecutive pages with any flags; on failure a first part of them is, and no page is left; all other translations are kept. |
| `VirtualMemory.MapInserts` | kernel/vm.c:138-160 | On the page table as a finite map, mappages is insertion. |
| `VirtualMemory.Descend` | kernel/vm.c:86-96 | One level of walk: the table an entry leads to, or a new one when allocation is asked for and a page is free. |
| `VirtualMemory.MapPage` | kernel/vm.c:147-154 | One page is mapped, or memory has run out and every translation is as before. |
| `UserMemory.UnmapAndFree` | kernel/vm.c:166-187 | uvmunmap with do_free: the range is unmapped, exactly the pages behind it become free, all other translations stay; its panics cannot happen for mapped pages. |
| `UserMemory.UnmapOnly` | kernel/vm.c:166-187 | uvmunmap without do_free: the range is unmapped and the free list stays. |
| `UserMemory.UnmapRemoves` | kernel/vm.c:166-187 | On the page table as a finite map, uvmunmap is removal. |
| `UserMemory.Uvmcreate` | kernel/vm.c:192-200 | An empty page table in one page of its own, or nothing at all. |
| `UserMemory.Uvmalloc` | kernel/vm.c:221-244 | On success user code can reach every address of the new pages, reads zero there, and their entries have V, R, W, X and U set; on failure every translation and every user byte is as before and all pages are accounted for; it fails only when fewer than three pages per new page are free. What user code saw below the old size it still sees, either way. |
| `UserMemory.Uvmdealloc` | kernel/vm.c:251-262 | Exactly the pages above the new size become free and are closed to user code; below it user code sees what it saw. |
| `UserMemory.Uvmcopy` | kernel/vm.c:301-328 | On success the child has byte-equal pages with equal flags, and user code sees in it what it sees in the parent; on failure the child is as before; the parent is untouched either way and no page is lost. |
| `UserMemory.CopiesApart` | kernel/vm.c:301-328 | The pages of the child are neither pages nor tables of the parent. |
| `UserMemory.UnmapPage` | kernel/vm.c:173-185 | One page is unmapped and freed if asked; no other translation changes. |
| `UserMemory.AddPage` | kernel/vm.c:230-241 | One page with the given contents joins the address space, or nothing that the user sees changes. |
| `FreeWalk.Freewalk` | kernel/vm.c:267-282 | Exactly the tables of the subtree become free; "freewalk: leaf" cannot happen when all leaves are gone. |
| `FreeWalk.Uvmfree` | kernel/vm.c:287-292 | Exactly the pages that the address space owned, tables and user pages, become free. |
| `FreeWalk.FreePagetable` | kernel/proc.c:205-210 | The same with the trampoline and trapframe mappings dropped first; their pages are not freed. |
| `FreeWalk.FreeBelow` | kernel/vm.c:270-279 | One entry of freewalk: the tables below it become free and the entry is cleared. |
| `CopyUser.Copyin` | kernel/vm.c:372-391 | The bytes that user code sees at the address, up to the first page it cannot reach. |
| `CopyUser.CopyinIff` | kernel/vm.c:372-391 | copyin succeeds if and only if user code can reach every byte asked for. |
| `CopyUser.Copyinstr` | kernel/vm.c:398-434 | On success a string with its first NUL at the end; otherwise what was seen before an unreachable page or the limit. |
| `CopyUser.CopyinstrIff` | kernel/vm.c:398-434 | copyinstr returns 0 if and only if a NUL lies within max bytes and every byte up to it is user-mapped. |
| `CopyUser.Copyout` | kernel/vm.c:347-366 | User memory holds the bytes written and is otherwise as it was; all are written unless a page cannot be reached. |
| `CopyUser.CopyRoundTrip` | kernel/vm.c:347-391 | What copyout wrote copyin reads back. |
| `CopyUser.SpaceOwnsPages` | kernel/vm.c:221-328 | An address space whose top two pages are closed to user code has its pages to itself, as copyout needs. |
| `CopyUser.CopyPage` | kernel/vm.c:412-426 | The bytes of one page up to and including the first NUL. |
| `AddressSpaces.ExactlyOneUse` | kernel/kalloc.c:15-25 | In a system state every page of RAM is free, the kernel's, or owned by exactly one address space. |
| `AddressSpaces.Bystander` | kernel/vm.c:166-391 | Whatever happens to pages an address space does not own, it translates and reads as before. |
| `AddressSpaces.Dealt` | kernel/vm.c:166-391 | Dealing pages anew between the free list and the kernel leaves every address space as it was. |
| `AddressSpaces.ProcPagetable` | kernel/proc.c:171-200 | A page table with trampoline and trapframe, closed to user code, and no user memory; on failure every page is free again and at most four were. |
| `AddressSpaces.FreeEmpty` | kernel/vm.c:287-292 | uvmfree with size 0 gives back every table page. |
| `AddressSpaces.Replaced` | kernel/vm.c:166-391 | If one address space and the free list exchange pages among themselves, every page still has exactly one use and all other spaces are as they were. |
| `AddressSpaces.Machine.constructor` | kernel/kalloc.c:27-31 | At boot every page is free and there is no address space. |
| `AddressSpaces.Machine.TakePage` | kernel/kalloc.c:69-82 | kalloc for the kernel: one page changes from free to the kernel's, or there is none. |
| `AddressSpaces.Machine.ReturnPage` | kernel/kalloc.c:47-63 | kfree of a page of the kernel. |
| `AddressSpaces.Machine.New` | kernel/vm.c:192-200 | uvmcreate adds an address space of one page in which user code can reach nothing, or, when no page is free, nothing; all others are untouched. |
| `AddressSpaces.Machine.NewProc` | kernel/proc.c:171-200 | proc_pagetable adds an address space whose top page maps the trampoline for reading and executing and whose page below maps the trapframe for reading and writing, both closed to user code, which can reach nothing; or nothing is added and at most four pages were free; all others are untouched. |
| `AddressSpaces.Machine.Grow` | kernel/vm.c:221-244 | uvmalloc exchanges pages only between the free list and this space; new addresses read as zero, old ones as before; it fails only when fewer than three pages per new page are free. |
| `AddressSpaces.Machine.Enlarge` | kernel/proc.c:253-262 | growproc upwards: user code can reach the new addresses and reads zero there, and sees the old ones as before; or, only when fewer than three pages per new page are free, the size stays; every page has one use and all other spaces are untouched. |
| `AddressSpaces.Machine.Reduce` | kernel/proc.c:263-266 | growproc downwards: user code sees the addresses that remain as before and can reach none of the others; every page has one use and all other spaces are untouched. |
| `AddressSpaces.Machine.Duplicate` | kernel/proc.c:282-288 | fork's uvmcopy: the child has the parent's size and pages with the same bytes and flags, or, only when fewer than three pages per page of the parent are free, stays empty; the parent and all other spaces are untouched. |
| `AddressSpaces.Machine.Put` | kernel/vm.c:347-366 | copyout writes the bytes where user code sees them, up to the first page it cannot reach, and changes no other address space, no table and no owner of a page. |
| `AddressSpaces.Machine.Drop` | kernel/proc.c:205-210 | Exactly the pages of the space become free; all other spaces are untouched. |
| `AddressSpaces.Machine.Perform` | kernel/vm.c:166-391 | Each request, also one that fails half-way for lack of memory, keeps the system state and every space it does not concern. |
| `AddressSpaces.Machine.Serve` | kernel/vm.c:166-391 | After any sequence of requests every page of RAM has exactly one use, no page is lost or made up, and an address space that no request concerned reads as it did. |
| `AddressSpaces.Machine.Fetch` | kernel/vm.c:372-391 | copyin gives the bytes that user code sees at the address, up to the first it cannot reach; nothing changes. |
| `AddressSpaces.Machine.GrowThenFetch` | kernel/vm.c:221-244 | After growing, copyin of any part of the new pages succeeds and gives zeroes. |
| `AddressSpaces.Machine.CopyThenFetch` | kernel/vm.c:301-328 | After uvmcopy, copyin from the child has the same result and gives the same bytes as from the parent, wherever below its size. |
| `Processes.InitInv` | kernel/proc.c:226-248 | The state at boot satisfies the invariant. |
| `ProcessSteps.BaseNext` | kernel/proc.c:273-573 | Every step, interrupts and preemption between any two steps of a thread without locks included, keeps who holds which lock, who is where, and which CPU runs whom. |
| `ProcessWakeups.WakesUnlock` | kernel/proc.c:539-550 | A sleeper gives up the channel's lock only when no wakeup that holds it is under way. |
| `ProcessWakeups.WakesWake` | kernel/proc.c:560-573 | wakeup leaves nobody it has passed asleep or on the way to sleep. |
| `ProcessWakeups.WaitsZombie` | kernel/proc.c:363-374 | The parent is awake, under wait_lock, when its child becomes a zombie. |
| `ProcessWakeups.WaitsReparent` | kernel/proc.c:324-334 | A child handed to init may be a zombie only until init has been woken, under the same wait_lock. |
| `ProcessWakeups.RunInv` | kernel/proc.c:273-573 | The invariant holds in every state of every run, for any number of CPUs and processes and with preemption wherever interrupts are on. |
| `ProcessWakeups.NoLostWakeup` | kernel/proc.c:529-573 | When wakeup(chan) returns to a caller that holds the channel's lock, no process is asleep or on its way to sleep on chan. |
| `ProcessWakeups.NoForgottenZombie` | kernel/proc.c:361-428 | Whenever wait_lock is free no process sleeps in wait while it has a zombie child, through reparenting too. |
| `ProcessWakeups.OneCpu` | kernel/proc.c:438-465 | A process is the current process of at most one CPU. |
| `ProcessWakeups.RunningIffCurrent` | kernel/proc.c:438-503 | While its lock is free a process is RUNNING if and only if some CPU has it as its current process. |
| `ProcessWakeups.FreedOffCpu` | kernel/proc.c:395-413 | wait frees a child only when no CPU is on its kernel stack. |
| `ProcessWakeups.SchedNeverPanics` | kernel/proc.c:475-492 | A thread in sched holds its own lock and no other lock, neither a table lock nor that of another process, and is not RUNNING; a zombie never runs again. |
| `ProcessWakeups.NextInv` | kernel/proc.c:273-597 | Every step of every thread, scheduler and interrupt handler keeps the invariant. |
| `ProcessFamily.RunFamily` | kernel/proc.c:273-429 | In every state of every run: who is in fork, past the store of the parent, is the parent of what it makes; every started process but init has a parent, and init none; free slots, slots being filled and zombies have no child, nor has an exiting process among the slots that reparent has passed; init never exits. |
| `ProcessFamily.ForkedIsChild` | kernel/proc.c:310-317 | From the store of the parent on, also while preempted, the child that a process in fork is making has this process as its parent. |
| `ProcessFamily.ParentIsMaker` | kernel/proc.c:273-334 | In every run a process other than init is the child of the process whose fork made it until that calls exit, and init's from then on whenever wait_lock is free. |
| `ProcessFamily.ReapedByMaker` | kernel/proc.c:384-429 | In every run wait frees a child for the process whose fork made it or, exactly if that has exited since, for init. |
| `ProcessFamily.OnlyWaitEnds` | kernel/proc.c:395-413 | A process ends only when it is a zombie, by its parent's wait, with its status copied out. |
| `ProcessFamily.ParentsLive` | kernel/proc.c:324-377 | A parent is never a free slot, a slot that fork is filling, or a zombie: exit hands all children on. |
| `ProcessFamily.WaitSleepsForSomebody` | kernel/proc.c:384-429 | wait goes to sleep only if it has a child that is not a zombie. |
| `ProcessFamily.WaitGivesUp` | kernel/proc.c:418-422 | wait answers -1 after its scan only if the caller has no child at all or has been killed. |
| `ProcessFamily.SleepsUntilRoused` | kernel/proc.c:529-597 | A sleeping process stays asleep until a wakeup on its own channel reaches it or it is killed, and is then RUNNABLE. |
| `ProcessFamily.KillMarks` | kernel/proc.c:579-597 | kill marks its victim and leaves it awake; nothing else marks a process. |
| `Umalloc.JoinLeftRing` | user/umalloc.c:38-42 | Joining with the left neighbour where they touch gives back a ring in which no two blocks touch. |
| `Umalloc.PutRightUnits` | user/umalloc.c:33-37 | Entering a block, joined with its right neighbour or not, adds exactly its units to the free ones. |
| `Umalloc.Heap.Search` | user/umalloc.c:30-32 | free's search ends at the block behind which the freed one belongs. |
| `Umalloc.Heap.FreeBlock` | user/umalloc.c:25-44 | The ring stays circular, address-ordered, disjoint and coalesced, the freed units join it, other live blocks are untouched, and freep is the block before. |
| `Umalloc.Heap.Free` | user/umalloc.c:25-44 | The block is no longer live; the units obtained are the same, each in exactly one block. |
| `Umalloc.Heap.Morecore` | user/umalloc.c:47-61 | At least 4096 units and at least as many as asked for are obtained, and no more than the larger of the two, and freed; freep or the block behind it is large enough. |
| `Umalloc.Heap.Malloc` | user/umalloc.c:64-90 | A new live block with room for the bytes asked for and less than 16 bytes more, disjoint from all others; morecore is called exactly when no free block fits, and once; 0 exactly when it is called and sbrk fails. |
| `Umalloc.TakenRing` | user/umalloc.c:75-82 | Cutting a block at its tail, or unlinking it, leaves a ring. |
| `Umalloc.FreeAccounted` | user/umalloc.c:25-44 | Free and live units together stay the units obtained, each in one block, when a block is freed. |
| `Umalloc.TakeAccounted` | user/umalloc.c:75-82 | The same when one is allocated. |
| `Umalloc.Heap.Take` | user/umalloc.c:75-85 | The requested units leave a free block and become live; freep is the block before. |
| `VirtioDisk.Wrap` | kernel/virtio_disk.c:260-311 | 16-bit indices tell how many entries wait and find the same ring slot as unbounded ones. |
| `VirtioDisk.RoomInAvail` | kernel/virtio_disk.c:259-265 | Fewer than NUM chains wait in the avail ring when one more is made available: no slot is overwritten early. |
| `VirtioDisk.RoomInUsed` | kernel/virtio_disk.c:300-312 | Fewer than NUM completions wait in the used ring when one more is reported. |
| `VirtioDisk.FreeOrInOneChain` | kernel/virtio_disk.c:145-201 | At every moment a descriptor is free, in the hands of the driver, or in exactly one chain of three. |
| `VirtioDisk.PrivateOk` | kernel/virtio_disk.c:223-257 | What the driver writes into descriptors that are in its hands only, and into a buffer without a request, keeps the invariant. |
| `VirtioDisk.SlotStored` | kernel/virtio_disk.c:258-259 | Storing the head into the next slot of the avail ring, before the index moves, overwrites no chain that waits and shows the device nothing. |
| `VirtioDisk.SubmittedOk` | kernel/virtio_disk.c:261-263 | The increment of the index makes the chain visible, complete, and keeps the invariant. |
| `VirtioDisk.TakenOk` | kernel/virtio_disk.c:259-269 | The slot the device reads next names the oldest chain not taken yet. |
| `VirtioDisk.MovedOk` | kernel/virtio_disk.c:223-253 | The transfer of a chain the device has taken keeps the invariant, and had not been made before. |
| `VirtioDisk.StatusOk` | kernel/virtio_disk.c:247-253 | So does the write of its status byte. |
| `VirtioDisk.SlotFilled` | kernel/virtio_disk.c:300-312 | The next slot of the used ring is free for it. |
| `VirtioDisk.ReportedOk` | kernel/virtio_disk.c:300-312 | The increment of the used index reports a chain that has been performed. |
| `VirtioDisk.NextSeen` | kernel/virtio_disk.c:300-308 | The next completion names a live chain with status 0 whose buffer is the one that waits. |
| `VirtioDisk.SeenOk` | kernel/virtio_disk.c:300-312 | Seeing it keeps the invariant. |
| `VirtioDisk.EndedOk` | kernel/virtio_disk.c:276-278 | A request that is done has been performed, and its descriptors go back to the driver. |
| `VirtioDisk.AllSeen` | kernel/virtio_disk.c:300 | When the 16-bit indices are equal every completion has been seen. |
| `VirtioDisk.Disk.Device` | kernel/virtio_disk.c:259-312 | Any number of device steps in any order, at any moment: the invariant holds afterwards, what is in the driver's hands is untouched, and requests only move on. |
| `VirtioDisk.Disk.DeviceTake` | kernel/virtio_disk.c:259-269 | The device takes the oldest chain made available. |
| `VirtioDisk.Disk.DevicePerform` | kernel/virtio_disk.c:223-253 | The device takes sector, direction, buffer and length from the descriptors and the header that they name, and nothing else; what it then does is the transfer asked for, once per request, whatever the driver is in the middle of. |
| `VirtioDisk.Disk.DeviceStatus` | kernel/virtio_disk.c:247-253 | The device stores status 0 where the third descriptor says, which is the record of that request. |
| `VirtioDisk.Disk.DeviceFill` | kernel/virtio_disk.c:300-312 | The device stores the head of a performed chain into the next slot of the used ring. |
| `VirtioDisk.Disk.DeviceReport` | kernel/virtio_disk.c:300-312 | The device moves the used index on by one. |
| `VirtioDisk.Disk.AllocDesc` | kernel/virtio_disk.c:145-154 | The first free descriptor, or none if all are in use, with the device at work in between. |
| `VirtioDisk.Disk.FreeDesc` | kernel/virtio_disk.c:158-170 | The descriptor is cleared and free; both panics are unreachable. |
| `VirtioDisk.Disk.Alloc3Desc` | kernel/virtio_disk.c:190-201 | Three distinct descriptors, or, when fewer than three are free, none, with every free mark as it was. |
| `VirtioDisk.Disk.FormatCommand` | kernel/virtio_disk.c:223-245 | The first two descriptors and the command are those of the request, with the device at work between the stores; `VirtioDisk.ChainReads` says what a device makes of them. |
| `VirtioDisk.Disk.FormatStatus` | kernel/virtio_disk.c:247-257 | The third descriptor points at the status of this request, and the request at its buffer. |
| `VirtioDisk.Disk.StoreSlot` | kernel/virtio_disk.c:259 | The head is in the next slot of the avail ring and nothing else has changed. |
| `VirtioDisk.Disk.Publish` | kernel/virtio_disk.c:258-263 | Slot store, device steps, index increment: the chain is the newest in the avail ring and is what was formatted. |
| `VirtioDisk.Disk.Submit` | kernel/virtio_disk.c:223-269 | The request is in the avail ring as asked for, with device steps between any two stores of the driver. |
| `VirtioDisk.Disk.StartRw` | kernel/virtio_disk.c:204-269 | A request is under way with its buffer busy, or the caller has to wait for descriptors and no free mark has changed. |
| `VirtioDisk.Disk.FinishRw` | kernel/virtio_disk.c:271-280 | When the buffer is no longer busy its own request has been performed; its descriptors are free again. |
| `VirtioDisk.Disk.FreeChain` | kernel/virtio_disk.c:174-185 | Following the links ends after exactly the three descriptors of the chain, all free. |
| `VirtioDisk.Disk.Intr` | kernel/virtio_disk.c:283-315 | Every completion reported when it is called is seen once: its request is done and its buffer not busy; the status panic is unreachable; it ends although the device goes on reporting. |
| `VirtioDisk.ChainReads` | kernel/virtio_disk.c:223-257 | Read by the VIRTIO rules alone, flags, lengths and links as numbers, every chain is a well-formed request: 16 bytes of header, the 1024 bytes of its buffer, which the device may write exactly on a read, one byte of status; sector twice the block number, direction as asked for. |
| `Shell.Gettoken` | user/sh.c:266-308 | The token and the next position, as the scanner defines them. |
| `Shell.PeekAt` | user/sh.c:311-320 | White space is skipped and the next character is one of those asked for. |
| `Shell.Parseredirs` | user/sh.c:375-397 | All redirections up to something else, in order; a missing file name panics. |
| `Shell.Parseexec` | user/sh.c:416-446 | A simple command or a block with its redirections; the tenth word panics. |
| `Shell.Parseblock` | user/sh.c:400-413 | A parenthesised line with its redirections. |
| `Shell.Parsepipe` | user/sh.c:362-372 | Commands joined by "|", to the right. |
| `Shell.Parseline` | user/sh.c:345-359 | Background marks, then lists to the right. |
| `Shell.LineSpans` | user/sh.c:297-302 | Every word of a parsed command is a maximal run of word characters, and no simple command has ten. |
| `Shell.Nulterminate` | user/sh.c:450-493 | The buffer has a NUL behind every word of the command and is otherwise as it was. |
| `Shell.WordsReadBack` | user/sh.c:450-493 | After nulterminate every argument and file name reads as exactly its token: a terminator never lands inside another token. |
| `Shell.Parsecmd` | user/sh.c:328-342 | The tree of the whole input, or a panic that leaves the buffer alone; every word of the tree is terminated in place. |
| `ShellGrammar.WritingParses` | user/sh.c:328-446 | Every text that spells a syntax tree, with any white space, words and redirections in any order, redundant parentheses or none, parses to the meaning of the tree: "|" binds tighter than "&", and "&" tighter than ";". |
| `ShellGrammar.ParsedIsWritten` | user/sh.c:328-446 | Every text the parser accepts spells a syntax tree, and the result is its meaning. |
| `ShellGrammar.AcceptsExactly` | user/sh.c:328-446 | The parser accepts a text if and only if it spells a syntax tree; all trees it spells mean the same command. |
| `ShellGrammar.ItemsParse` | user/sh.c:416-446 | Words and redirections of a simple command in any order: the words are the arguments, the redirections nest in the order written. |
| `ShellGrammar.RoundTrip` | user/sh.c:328-342 | Any printable command, written with the fewest parentheses its structure allows or with all of them, parses back to itself. |
| `ShellGrammar.WritableExactly` | user/sh.c:328-493 | The commands that some line parses to are exactly those with at most nine words per simple command, all of word characters. |
| `Grep.MatchHereIff` | user/grep.c:83-94 | matchhere says yes if and only if the text begins with one piece for each element of the pattern, for every pattern and text. |
| `Grep.MatchIff` | user/grep.c:71-104 | match says yes if and only if the declarative meaning of ^ . * $ does. |
| `Grep.Matchstar` | user/grep.c:97-104 | The loop over the text decides whether zero or more instances and then the rest match. |
| `Grep.MatchText` | user/grep.c:71-80 | The loop tries every starting point, the empty rest included. |
| `Grep.GrepInput` | user/grep.c:11-34 | However read splits the input, what is printed are the matching newline-terminated lines up to the first line of more than 1023 bytes. |
| `Grep.GrepLines` | user/grep.c:11-34 | With lines of at most 1023 bytes, exactly the matching newline-terminated lines are printed. |
| `Grep.Matchhere` | user/grep.c:83-94 | The recursion as a method over the same definition. |
| `Grep.OneLine` | user/grep.c:22-27 | The line is printed if it matches; the rest of the buffer is untouched. |
| `Grep.Lines` | user/grep.c:20-28 | What is printed for the complete lines in the buffer, and for the rest of the input, is what is printed for all of it. |
| `Grep.PrintsChosen` | user/grep.c:11-34 | Of a text made of lines, grep prints the lines that the pattern means, whole and in order, up to the first of 1023 characters or more; what follows the last newline it does not print. |
| `Pipe.Counters` | kernel/pipe.c:88-121 | 32-bit counters that wrap still tell an empty ring from a full one and find the right slots, since PIPESIZE divides 2^32. |
| `Pipe.Ring.Put` | kernel/pipe.c:95 | The byte joins the end of what was written; the ring holds exactly what was written and not taken. |
| `Pipe.Ring.Get` | kernel/pipe.c:123 | The byte taken is the oldest one not taken yet. |
| `Pipe.Ring.Write` | kernel/pipe.c:77-103 | The bytes written are the next ones of the source in order, up to its end, a full ring, a fault or a closed read side. |
| `Pipe.Ring.Read` | kernel/pipe.c:106-130 | The bytes read are the next ones in the order written, as many as are asked for, there and can be stored; a byte that cannot be stored is lost; on an empty pipe with a writer left the reader waits, or gives up exactly if it has been killed. |
| `Pipe.Ring.constructor` | kernel/pipe.c:23-56 | An empty pipe with both ends open. |
| `Pipe.Ring.Close` | kernel/pipe.c:59-74 | The end is closed for good; the pipe is given back exactly when both are. |
| `Pipe.Ring.Serve` | kernel/pipe.c:59-130 | Any interleaving of writers, readers and closers: what readers received is, byte for byte and in order, what was sent and has left the ring, unless a destination failed. |

## Left out

- Assembly, traps, interrupt controller, UART and boot code: hardware plumbing; swtch is a control transfer and acquire and release are atomic steps.
- Weak memory: steps are sequentially consistent.
- kernel/sysfile.c, directories, link counts, ialloc, iget and iput: inodes exist from the start, and the in-memory inode table is the inode itself.
- mkfs/mkfs.c: the initial disk is a well-formed image.
- kernel/exec.c, kernel/console.c, kernel/printf.c, the remaining user programs: easy beside the parts above, or input and output only.
- growproc and sys_sbrk: their 32-bit truncation; address spaces end at TRAPFRAME.
- uvminit, uvmclear, kvmmake and the kernel page table: single uses of the operations modelled.
- Several devices: the cache and the file system have one disk.
- FileSystem.FileSystem.LogWrite: stands for bread, modify, log_write and brelse on the logical disk and records the write; `DurableFile.WriteDurably` replays the recorded writes through log and cache, one operation at a time, while several operations at once meet only in `GroupCommit`, on blocks and not on files.
- FileSystem.FileSystem.Writei: a block whose source copy fails is changed in the cache but not logged; the model takes the change as staying, while an eviction could lose it.
- WriteAheadLog.Log.BeginOp: waiting is the answer "not admitted"; no fairness among callers is claimed, newcomers may overtake one that waits.
- ProcessSteps.BaseNext: one iteration of wakeup, kill, wait's look at a child and fork's allocproc is one step under the lock of the process concerned; process ids are slot numbers, and what a killed process does on its way back to user space is not modelled; wakeup is not preempted half-way, since every caller holds a lock.
- VirtioDisk.Disk.Submit: memory barriers and a device that reports an error are not modelled; sector numbers are unbounded where the source multiplies a 32-bit block number.
- VirtualMemory.Mappages: a remap panics in the source and is a precondition here.
- AddressSpaces.Machine.Duplicate: copies into an address space without user memory, as fork does.
- Umalloc.Heap.Malloc: sizes are unbounded numbers; regions from sbrk lie above the earlier ones and below 2^32 bytes, where 32-bit sizes cannot overflow.
- Pipe.Ring.Read: its wakeups and the sleeping itself are those of `Processes`; no liveness is claimed.
