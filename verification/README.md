# ExarOS, modelled in Dafny

ExarOS is a RISC-V 64 kernel in C. This project models the parts of it whose correctness is a
property of large mutable structures, and proves those properties for every input, every run or
every interleaving:

* **paged memory** (`PageTables`, `PteWords`, `PhysicalMemory`, `TableSpots`, `Memory`, `AddressSpaces`, `Teardown`,
  `CopyOnWrite`, `Processes`, `SharedMemory`, `LazyLoading`, `UserCopy`, `UserSet`): Sv39 tables against a flat map, exact
  reference counts, copy-on-write against deep copying, making processes, demand loading against loading
  at once, copying between kernel and process;
* **FAT32 files** (`Bitmap`, `ClusterIndex`, `FatHeap`, `FatVolume`, `FatFiles`, `LongNames`, `Directories`,
  `BlockCache`): cluster chains, the three-level index that caches them, files as byte sequences,
  long names as a printer and a parser, and the hashed cache of blocks;
* **threads** (`Scheduler`, `Signals`, `Pipe`, `Locks`, `Lists`): run queues, futex slots, signal contexts,
  the pipe with its two sleeping sides, interrupt nesting and the intrusive lists;
* **the virtio block driver** (`Virtio`), a protocol between driver and device over two rings;
* **two pieces of the user library** (`NumberText`, `WordStrings`): printing and reading numbers, and
  scanning strings a word at a time.

Code that changes state is a class or a method with loops, proved against a value: a `View()`, `V()`,
`W()` or `T()` function gives the value that the fields describe, and lemmas about such values carry
the theorems. Fields marked `ghost` hold what the C code never stores, such as the flat map, the
chain behind an index, or the bytes ever written to a pipe.

`dafny verify dfyconfig.toml` checks the whole project.

## How the main results fit together

*Memory.* `LookupIsMap` says that the three-level walk computes the flat map, and every operation of
`Memory` states what happens to that map, to the counts and to the free list. `ForkSpace`, `CowHandler`
and `PgdirFree` are built from these operations. fork ignores it when a mapping fails for want of table
pages, so `ForkSpace` also says, of the state before, which pages the child will lack: those whose
bottom-level table the child has not, and whose turn comes after the free pages are used up.
`StepRefines` then shows that making a space, mapping the kernel's pages into it, fork, mappings that
fail, write faults, stores, loads, unmapping, exit, shared memory and kernel writes are the same steps of
a memory in which fork copies every page but the lost ones. So `RunRefines` and `Isolation` hold over any
run, and `BootRuns` over any run from boot. What those do not speak of, the trampoline and the trap frame,
`TrapPagesRun` covers. And `HardWalkIsMap` says that the flat map is what the hardware goes by. The one condition is on kernel writes, which ignore the write
bit: they must stay at their page, or go to a page that no process has, and `KernelWriteIff` and `StrayIff`
show that this is exact. `SetupProcess`, `ForkProcess`, `Copyin` and `Copyout` do what the C functions do and return the run of
steps that they are. `Seen` in `UserCopy` is what a process reads at an address, including pages not
loaded yet; faults and sharing never change it, and `Copyout` changes it exactly at the range written.
`Built` says the same of demand loading as a whole: faults in any order leave what loading at once would.

*Files.* `Valid()` of a `Volume` ties four layers together: the table's chains are apart, the bitmap
mirrors the table, the cached index is a prefix of the chain, and each file's record agrees with
both; the constructor establishes it for a well-formed table and the records of a mount. `Wrote` says
what a write does to the bytes of every file; `WriteSplices`, `WriteKeeps` and `ReadsBack` turn that into statements about byte sequences, and `MadeIsFound` carries a directory entry
from `MakeDentry` to `DirMetaNext`.

*Threads, signals, pipe, virtio.* Each has a transition system whose steps are the kernel's entry
points (for the pipe, single lock operations; for virtio, also the device's moves), an invariant kept
by each step, and a theorem over all runs; for the scheduler and for virtio the theorem says exactly
which runs keep the invariant. Methods next to it do what the C functions do and are
shown to be those steps.

## Where the code does something other than intended

The model keeps what the code does. Each of these is proved:

* `CopyoutIff`, `KernelWriteIff`: copyout ignores the write bit, so a kernel write to a page that is mapped
  twice, not marked and not shared memory is seen in both spaces. It is private if and only if the page
  is shared memory or its count is one.
* `MemsetOut`, `SetIff`: cowHandler returns the address of the old page. copyout and copyin walk again;
  memsetOut writes through that address, and so for everybody but the process. It sets the range, and
  nothing else that anybody sees, if and only if every byte of the range that lies on a marked page has
  the value already; `SetSoFar` says what everybody sees otherwise. `StrayIff` says when such a write is seen.
* `ForkSpace`, `DeepCopyIff`: processFork ignores failures of pageMap, so fork is a deep copy if and only if the
  tables that the child still needs fit the free list (`NewTables`); otherwise it silently lacks exactly the
  pages that come too late (`TooLate`). `ForkProcess` counts what a whole fork needs (`PagesToFork`), and
  `LosingFork` is a run from boot that loses a page. The kernel goes on after it, and so do the runs of
  `RunRefines`.
* `Attach`: shmAt ignores the same failures. It leaves a page out if and only if, at some page of the range, the
  free pages with those that replaced mappings have given back do not stretch to the tables (`Short`).
* `PageMap` removes an old mapping before it makes the new one. It keeps the memory's invariant if and only
  if it does not map a page over itself with a count of one, which puts the mapped page on the free list;
  `SharedIsTwice` shows that fork never does that.
* pgdirFree clears entry j of the bottom-level table it is about to release (line 236), not the entry of
  the middle table that points to it. The stale entries are the ghost field `dead`; `Uproot`, `ForgetDead`
  and `PgdirFree` show that they do no harm, because each lies in a page that is released too.
* `FreesAllIff` and `LeakWitness`: line 69 of inode.c counts third-level entries from the second-level base,
  so metaFreeInode releases everything if and only if the file has at most 1032 cached clusters.
* `IndexAgreesIff`: readDentryInfo caches cluster number 0 at position 0 of an empty file (lines 1201-1206 of
  fat.c). Every cached position gives the cluster of the chain if and only if the file has a first
  cluster or nothing is cached; metaWrite tests the first cluster, before it looks at the index.
* `RoundTripIff`, `TooLong`: a name of 248 to 255 characters has twenty parts and does not fit the buffer that
  is read into; a short name that begins with the mark of a free entry, or a file whose attribute is
  that of a long entry, is not read back.
* `WriteAgreesIff`: the driver ignores the device number. Writing through one buffer leaves every valid buffer
  agreeing with the disk, whatever is written, if and only if no other one is for the same block number;
  `OneDeviceAgrees` shows that one device number, which is what the kernel's file systems have, is enough for that.
* `SubmittedInvIff`, `RunInvIff`: nothing in the block cache keeps two threads from reading one uncached block
  at once, as bread sleeps in the driver before it marks the buffer valid. Two requests are then
  outstanding for one buffer, and they share the flag that each thread waits on. The protocol holds over
  a run if and only if no request is submitted for a buffer whose flag is set; each such submission can be
  followed by a thread freeing a chain that the device still has (`SharingHarms`), and `ConcurrentReads`
  is a run from boot in which that happens.
* `Start`, `Fork`, `Create`: when no process record is left, mainThreadAlloc leaves its thread marked runnable
  and in no queue. `Stray` says that this breaks the invariant.
* `KilledIff`, `RetiredIff`: neither SIGKILL nor threadFree gives up the thread's futex slot. Each keeps the
  invariant if and only if the thread has none. `DeadWaiter` shows a free record put into a run queue by
  the wake that follows.
* `SleptIff`: a thread killed while it runs is put into its queue and runs on. If it sleeps before handleSignal
  destroys it, it sleeps in a run queue; sleep is right if and only if it still counts as running.
* `RunInvIff` of `Scheduler`: a run from boot keeps the invariant if and only if no thread is killed or
  destroyed while it waits on a futex, and none sleeps, on a channel or a futex, that was killed while it
  ran. `KilledWaiter` and `KilledSleeper` are runs of four steps in which one does.
* `NoPanicIff`: interruptPop's guard is off by one. With interrupts on, a sequence of pushes and pops is free
  of panics if and only if no pop lacks its push; with interrupts off one such pop goes unnoticed.
* `BalancedIff`: myThread returns without its pop when no thread is current (lines 28 to 34 of thread.c), so the
  nesting depth stays above zero. fifoSched turns interrupts on all the same, and then taking and
  releasing any lock turns them off for good: it leaves them as they were if and only if the depth was
  zero or they were off.
* `HeadIsTailIff`: sched_setscheduler puts a queued thread at the head of its new queue; section 2.8.4 of
  POSIX.1-2017 XSH asks for the tail. The two agree if and only if the thread is not queued or the new
  queue holds no other.
* `ResetIff`: handleSignal resets a handler if and only if bit 0x0004 of its flags is set; a second signal of
  the same number then finds none.

Where an array is too short the C code has no defined result, and the model stops before it: line 25 of
inode.c bounds the search for a free node by the size of the bitmap in bytes, eight times its length in
words, so with all nodes in use it reads past its end. `AllocBit` searches the words that there are and then
answers that it found none, and `InodeAlloc` asks for an unused node.

## Model

| member | source | states |
|---|---|---|
| `PageTables.AddressRoundTrip` | include/memory.h:33-48 | VAPPN's three indices and the address that fork and teardown rebuild from them undo each other; rounding an address loses only its page offset |
| `PageTables.ShiftInSteps` | include/memory.h:47 | the level shifts of VAPPN are repeated nine-bit shifts, so the fields are the digits of the page number in base 512 |
| `PageTables.LookupIsMap` | kernel/memory/memory.c:260-308 | the three-level walk computes the flat map from (address space, virtual page) to leaf entry, at every key |
| `PageTables.HardWalkIsMap` | kernel/memory/memory.c:287-308 | the hardware's walk over the raw words (section 4.3.2 of the RISC-V Privileged Architecture 20211203), which stops at the first entry that grants r or x, reaches a leaf exactly where the flat map has an entry that grants r, or x without w; it is that entry, at the lowest level |
| `PageTables.MappedTranslates` | kernel/memory/memory.c:176-191 | so the hardware translates every address of a mapped page to the same offset in the physical page, if the permissions let anybody use it |
| `PageTables.LowOfIsKeyOf` | kernel/memory/memory.c:287-308 | tables form a tree: a bottom-level table reached by a walk serves that walk's addresses of that space and no others |
| `PageTables.KeyOfInjective` | kernel/memory/memory.c:287-308 | no two entries of any two bottom-level tables serve the same position: no sharing, no cycle |
| `PageTables.LinkGood` | kernel/memory/memory.c:293-303 | hanging a blank page under an empty upper entry, by a word that grants nothing, keeps the forest and the flat map; every live upper entry is such a pointer |
| `PageTables.SetLeafGood` | kernel/memory/memory.c:383-406 | storing or clearing a leaf entry changes the flat map at that one position and keeps the forest |
| `PageTables.PlantGood` | kernel/process/process.c:203-210 | a blank page becomes a new, empty address space |
| `PageTables.UprootGood` | kernel/process/process.c:212-242 | taking an emptied table page out of the forest keeps every other walk, although the parent's entry still looks valid |
| `PageTables.ForgetDead` | kernel/process/process.c:212-242 | once a whole space is released, the entries left behind lie in released pages and can be forgotten |
| `PteWords.WordRoundTrip` | include/memory.h:38-45 | a stored entry word is valid and PTE2PPN, PTE2PA and PTE2PERM give back its page number, its address and its permission bits |
| `PteWords.WordLayout` | include/memory.h:16-45 | the permissions are the bits that section 4.4.1 of the RISC-V Privileged Architecture 20211203 assigns, copy-on-write and shared memory are the two bits left to software, the page number begins at bit 10, and the rest is zero |
| `PteWords.TableWord` | kernel/memory/memory.c:302 | a table is linked by page number and valid bit alone, which to the hardware is a pointer |
| `PteWords.WordInjective` | include/memory.h:16-45 | different pages or permissions have different words, and none is the empty word |
| `PteWords.ForkPerm` | kernel/process/process.c:803-807 | on every word, fork's marking changes exactly the write and copy-on-write permissions and keeps the page and the valid bit |
| `PteWords.ForkWrites` | kernel/process/process.c:803-807 | fork's bit operations on a stored word give the word of the marked permissions |
| `PteWords.ForkCopies` | kernel/process/process.c:808 | the word that pageMap stores for the child is the parent's entry, accessed and dirty |
| `PteWords.CowWrites` | kernel/trap/tlb_exception.c:26 | the mask arithmetic of cowHandler stores the copy's entry: writable, unmarked, all other permissions kept |
| `PhysicalMemory.MappedIsCounted` | kernel/memory/memory.c:383-406 | a mapped page has a positive count, is not on the free list and is no table page |
| `PhysicalMemory.FreeIsUnused` | kernel/memory/memory.c:317-332 | a page on the free list, or handed out and not yet used, is mapped nowhere, is no table page and is not the kernel's |
| `PhysicalMemory.PoppedInv` | kernel/memory/memory.c:317-332 | pageAlloc keeps the invariant and adds exactly one page to those handed out |
| `PhysicalMemory.LinkedInv` | kernel/memory/memory.c:293-303 | giving a blank page to the tree keeps counts exact: users + 1 for a table page + the kernel's own |
| `PhysicalMemory.UnmappedInv` | kernel/memory/memory.c:221-233 | dropping a mapping with its count, and listing the page when the count reaches zero, keeps counts exact and loses no page |
| `PhysicalMemory.MappedInv` | kernel/memory/memory.c:383-406 | adding a mapping with its count keeps counts exact |
| `PhysicalMemory.RewrittenInv` | kernel/memory/memory.c:396-400 | rewriting the permissions of a mapping in place keeps counts exact |
| `PhysicalMemory.TookTrans` | kernel/memory/memory.c:287-308 | the footprint of a creating walk composes: only free pages become table pages, all else keeps place, count and content |
| `PhysicalMemory.InsertedFresh` | kernel/memory/memory.c:383-406 | a mapping after a creating walk has the footprint of one insertion: one position of the map, table pages from the free list, contents kept |
| `TableSpots.MissingIs` | kernel/memory/memory.c:287-308 | the table pages that a creating walk would add are the tables on the way that the space has not |
| `TableSpots.SpotsAfter` | kernel/memory/memory.c:287-308 | after a mapping the space has just the tables it had and those on the way, and no other space has more |
| `TableSpots.LowOfNone` | kernel/memory/memory.c:287-308 | where the walk finds no bottom-level table the space has none there |
| `KernelMemory.Memory.constructor` | kernel/memory/memory.c:46-60 | freePageInit leaves the kernel image's pages counted once and all others listed, highest first |
| `KernelMemory.Memory.PageAlloc` | kernel/memory/memory.c:317-332 | the first listed page, cleared, or failure exactly when the list is empty |
| `KernelMemory.Memory.AllocPgdir` | kernel/process/process.c:203-210 | a fresh directory with nothing mapped, counted once; every mapping and every other page's content stays |
| `KernelMemory.Memory.KernelKeep` | kernel/memory/memory.c:383-406 | a page mapped by the kernel alone is counted once as the kernel's |
| `KernelMemory.Memory.LinkNew` | kernel/memory/memory.c:293-303 | one creating turn of the walk, or no change: the first free page, cleared and counted once, is linked by a word that grants nothing |
| `KernelMemory.Memory.PageWalk` | kernel/memory/memory.c:287-308 | without create: the bottom table, if there is one, and no change; with create: succeeds exactly when the missing tables fit the free list, takes exactly that many pages and hangs them on the way, as pointers and not as leaves |
| `KernelMemory.Memory.PageLookup` | kernel/memory/memory.c:260-275 | answers the flat map and changes nothing |
| `KernelMemory.Memory.PageRemove` | kernel/memory/memory.c:221-249 | fails exactly on an unmapped position; else only that position leaves the map, one count drops, the page is listed exactly at zero |
| `KernelMemory.Memory.PageInsert` | kernel/memory/memory.c:383-406 | succeeds exactly when the missing tables fit the free list; the map changes at the target only, to the page with accessed and dirty set; contents of pages in use stay |
| `KernelMemory.Memory.PageMap` | kernel/memory/memory.c:175-212 | the same for kernelPageMap plus the count, which always removes an old mapping first; the free list shrinks by the tables added and grows by the page given back; the invariant holds afterwards if and only if the page was not mapped over itself with a count of one |
| `KernelMemory.ListedAgain` | kernel/memory/memory.c:182-190 | removing the mapping to be replaced lists its page exactly if that is the page to be mapped and nothing else counts it |
| `KernelMemory.Memory.PaDecreaseRef` | kernel/memory/memory.c:669-678 | on an emptied table page the assert holds: its count is exactly one, and the page becomes free |
| `KernelMemory.InsertedAfterRemoved` | kernel/memory/memory.c:383-406 | removing the old mapping and inserting the new one amounts to one replacement in the flat map |
| `KernelMemory.ReleasedInv` | kernel/memory/memory.c:669-678 | releasing an emptied table page keeps the whole invariant |
| `AddressSpaces.TopPages` | include/mem_layout.h:139-143 | the three special pages are the top three below VA_MAX |
| `AddressSpaces.CowHandler` | kernel/trap/tlb_exception.c:9-28 | succeeds exactly on a marked entry with a page left; afterwards the position maps a private copy of the same bytes, writable, unmarked, accessed and dirty, with its other permissions, and every other mapping and every page in use is as before |
| `AddressSpaces.ForkEntry` | kernel/process/process.c:800-808 | one turn of fork's innermost loop: parent's entry marked if writable and not shared; child maps the same page with the same bits, or lacks the page, exactly if the free pages do not stretch to its tables |
| `AddressSpaces.ForkSpace` | kernel/process/process.c:788-811 | the trampoline and the trap frame stay as they are in parent and child; at every other mapped page of the parent a writable entry that is not shared memory becomes read-only and marked, and the child gets what the parent then has, accessed and dirty, or nothing if the page is lost; a page is lost exactly if the child has no bottom-level table for it and the free pages do not stretch to the tables needed up to it, and none is exactly if they stretch to all; no other position and no content in use changed |
| `AddressSpaces.ForkIs` | kernel/process/process.c:801-808 | the same of any two states that the loop connects, for the entries at those two pages and at all others |
| `AddressSpaces.ForkedTrans` | kernel/process/process.c:788-811 | consecutive stretches of the loop compose |
| `AddressSpaces.ServedTrans` | kernel/process/process.c:788-811 | of two stretches, the pages lost and the tables added are those of the whole, as the free list before the first tells |
| `AddressSpaces.TablesSplit` | kernel/process/process.c:788-811 | the tables for two stretches are those for the first and then those for the second |
| `AddressSpaces.SharedIsTwice` | kernel/process/process.c:788-811 | a page that fork finds in both spaces has a count above one, so replacing the child's mapping never frees it |
| `Teardown.FreeLow` | kernel/process/process.c:229-237 | the innermost loop unmaps one table's range and releases the table |
| `Teardown.FreeMid` | kernel/process/process.c:223-239 | the middle loop releases a middle table with everything below it |
| `Teardown.PgdirFree` | kernel/process/process.c:212-242 | the whole space is unmapped and all its table pages are released; every other space's mappings and tables stay; no assert of paDecreaseRef fails on the way |
| `Teardown.FreesExactly` | kernel/process/process.c:212-242 | a page is free afterwards exactly if it was free before, was the directory or a table of this space, or was referenced by this space alone |
| `Teardown.FreedByCount` | kernel/memory/memory.c:241-249 | a count is zero exactly if nothing maps the page, it is no table page and the kernel does not hold it |
| `CopyOnWrite.StepRefines` | kernel/process/process.c:788-811 | every step (a new space, a kernel page, a special mapping, fork, also one that loses pages, a failed mapping, write fault, store, kernel write, stray write, load, unmap, exit, shared memory) keeps the copy-on-write invariant and is the same step of a memory in which fork copies every private page at once, less the lost ones |
| `CopyOnWrite.RunRefines` | kernel/trap/tlb_exception.c:9-28 | over any run of these steps the kernel's memory stands for what deep copying would have produced |
| `CopyOnWrite.BootRuns` | kernel/memory/memory.c:46-60 | and over any run from the memory that freePageInit leaves, starting from no spaces at all |
| `CopyOnWrite.TrapPagesRun` | kernel/process/process.c:801 | over any run, forks included, the entries at the trampoline and the trap frame of any space are never marked copy-on-write, and one that no step replaces or removes stays exactly as it is, with its write bit |
| `CopyOnWrite.TrapPagesFromBoot` | kernel/process/process.c:801 | so from boot no space ever has a marked entry at either page |
| `CopyOnWrite.ForkRefines` | kernel/process/process.c:788-811 | fork is a deep copy less the lost pages: parent and child read equal bytes at every other ordinary page |
| `CopyOnWrite.DeepCopyIff` | kernel/process/process.c:788-811 | fork is a deep copy of every ordinary page if and only if the tables that the child still needs fit the free list before it |
| `CopyOnWrite.CowFaultRefines` | kernel/trap/tlb_exception.c:9-28 | a copy-on-write fault is invisible to every process |
| `CopyOnWrite.StoreRefines` | kernel/trap/tlb_exception.c:9-28 | a user store, possible only through a writable entry, changes one private page or one shared object |
| `CopyOnWrite.LoadRefines` | kernel/memory/memory.c:501-549 | mapping a freshly filled page changes one position |
| `CopyOnWrite.UnmapRefines` | kernel/memory/memory.c:221-233 | unmapping removes one position, no content changes |
| `CopyOnWrite.ExitRefines` | kernel/process/process.c:212-242 | teardown removes one space, no content changes |
| `CopyOnWrite.ShmAllocRefines` | kernel/process/shm.c:36-44 | a new shared page is a new object |
| `CopyOnWrite.ShmAtRefines` | kernel/process/shm.c:74-83 | attaching names an existing object at one more place |
| `CopyOnWrite.NewSpaceRefines` | kernel/process/process.c:203-210 | a new page directory is no change for any process |
| `CopyOnWrite.KernelPageRefines` | kernel/process/process.c:286-291 | nor is a page that the kernel takes for itself |
| `CopyOnWrite.MapSpecialRefines` | kernel/process/process.c:299-301 | nor is mapping one of the kernel's pages at a special position |
| `CopyOnWrite.KernelWriteRefines` | kernel/memory/memory.c:626-634 | a kernel write, which no permission restrains, changes one private page or one shared object, if it stays at its page |
| `CopyOnWrite.KernelWriteIff` | kernel/memory/memory.c:607-638 | kernel writes are steps of the deep-copy memory, whatever they write, if and only if the page is shared memory or its count is one |
| `CopyOnWrite.ForkKeeps` | kernel/process/process.c:803-807 | after fork, also one that lost pages, a page with two mappings is shared memory or not writable anywhere |
| `CopyOnWrite.Isolation` | kernel/process/process.c:788-811 | over any run in which a process takes no step of its own, none of its ordinary pages appears, vanishes or changes content, shared memory aside |
| `CopyOnWrite.CopyoutIff` | kernel/memory/memory.c:607-638 | copyout, which ignores the write bit, stays private at a page for every byte if and only if the page is shared memory or its count is one |
| `CopyOnWrite.MemsetOutOnCowPage` | kernel/memory/memory.c:652-662 | after a fault at a marked page, writing through the address cowHandler returns is seen by the other mapping and not by the faulting process |
| `CopyOnWrite.MemsetOutIff` | kernel/memory/memory.c:648-667 | one byte of memsetOut, in terms of the deep-copy memory: right for every value if and only if the page is not marked and a kernel write stays there |
| `CopyOnWrite.StrayIff` | kernel/memory/memory.c:657-662 | a write to a page by its address shows nobody anything, whatever is written, if and only if no process has the page |
| `CopyOnWrite.BootInv` | kernel/memory/memory.c:46-60 | the memory freePageInit leaves satisfies the copy-on-write invariant |
| `Processes.PlantSpace` | kernel/process/process.c:203-210 | allocPgdir is a step: a new empty space, every other space as before; fails exactly without a free page |
| `Processes.TakeKernelPage` | kernel/process/process.c:286-291 | so is taking a page for the kernel |
| `Processes.MapImage` | kernel/process/process.c:299-301 | so is pageMap of one of the kernel's pages; it fails exactly if the tables do not fit the free list, and a failure, which the kernel ignores, changes nothing for any process |
| `Processes.SetupProcess` | kernel/process/process.c:253-303 | is a run of steps, keeps the copy-on-write invariant and changes nothing for any process; needs two free pages, and with four or more, and only then, the new space maps the three kernel pages, readable, writable and executable, the signal trampoline for the user as well |
| `Processes.ForkProcess` | kernel/process/process.c:734-811 | process creation and fork together are a run of steps whatever fails in them, whose effect is that the child is a deep copy of the parent less the lost pages; nothing is lost if and only if the free pages number at least four and the tables that the parent's pages need besides those of the kernel's pages |
| `Processes.LosingFork` | kernel/process/process.c:788-811 | from boot with five free pages: a process with one page forks, and the child lacks the page, whichever ordinary page it is |
| `SharedMemory.Segments.constructor` | kernel/process/shm.c:8-9 | at boot none of the 128 segments is in use, and the first will begin at 0xF_0000_0000 |
| `SharedMemory.Segments.Alloc` | kernel/process/shm.c:17-50 | the first unused slot gets the next kernel addresses, as many whole pages as hold the size, and the first free pages, each blank and a new shared object; -1 exactly when all slots are used |
| `SharedMemory.Segments.Attach` | kernel/process/shm.c:58-88 | names the segment's objects, in order, at the pages from the heap's end on, less those whose mapping failed, each by an entry that grants everything and is marked as shared memory; one fails if and only if at some page of the range the free pages, with those given back so far, are fewer than the tables needed so far |
| `SharedMemory.ReturnedMore` | kernel/process/shm.c:74-83 | replacing a mapping gives its page back exactly if nothing counts the page but mappings in the range so far |
| `SharedMemory.AttachTurn` | kernel/process/shm.c:74-83 | a turn of the loop fails exactly where the pages run short |
| `SharedMemory.AttachedAt` | kernel/process/shm.c:74-83 | attaching names exactly the segment's objects at exactly the range's pages |
| `SharedMemory.SharedSeen` | kernel/process/shm.c:58-88 | two processes that attach a segment read, at each of its pages, what either of them stores there |
| `SharedMemory.ForkShares` | kernel/process/process.c:803-808 | a store by a forked child to an attached page that it did not lose is read by the parent |
| `SharedMemory.SegmentsApart` | kernel/process/shm.c:22-45 | different segments have no page in common |
| `LazyLoading.MetaReadInto` | kernel/memory/memory.c:534-537 | a read into a page stores the file's bytes that exist and leaves the rest |
| `LazyLoading.FillPage` | kernel/memory/memory.c:515-541 | the loop over the segment list gives every byte the value that the last segment with one for it assigns, or zero, and the union of the permissions of the segments that meet the page; nothing is found exactly when none meets it |
| `LazyLoading.PassiveAlloc` | kernel/memory/memory.c:501-549 | a fault maps a fresh page: between 0x3E_FFFF_D000 and 0x3F_FFFF_D000 zeros that the user may read and write, elsewhere the segments' image with their permissions and the user's; fails exactly outside both, without change |
| `LazyLoading.OrderDoesNotMatter` | kernel/memory/memory.c:521-541 | where segments do not overlap, content and permissions of a page do not depend on the order of the segment list |
| `LazyLoading.UnionIsLeast` | kernel/memory/memory.c:538 | the permissions are the least that contain those of every overlapping segment |
| `LazyLoading.SegmentTraverse` | kernel/process/exec.c:334-381 | the built list puts at each address the byte of the first header that has one there, and covers exactly the addresses asked for; headers that ask for disjoint memory give disjoint segments; the address of the program headers is the last holding header's |
| `LazyLoading.AppendHeader` | kernel/process/exec.c:342-372 | the file part of a header, executable, and its zero part, not executable, are put at the head of the list, where the header has them |
| `LazyLoading.LoadedProgram` | kernel/process/exec.c:342-372 | demand loading from the list built for a program whose headers ask for disjoint memory gives, at every address a header asks for, the file's byte or zero |
| `UserCopy.Reach` | kernel/memory/memory.c:614-625 | the translating part of the copy loops: succeeds exactly on an address that is mapped for the user or can be faulted in; the page then has this one mapping or is as before, no process sees a difference, and it is at most one fault step |
| `UserCopy.Copyin` | kernel/memory/memory.c:563-594 | the bytes the process sees at the range, page by page, and no process sees a difference: the call is a run of faults; fails only at an address that nothing backs |
| `UserCopy.Copyout` | kernel/memory/memory.c:607-638 | the call is a sequence of faults and kernel writes that write exactly the bytes given, in order, and keeps the copy-on-write invariant; where every page of the range is unmapped, marked, shared memory or mapped once it is a run of deep-copy steps, and where none is shared memory the process sees the bytes at the range and nothing else that anybody sees has changed; on failure exactly a prefix up to an address that nothing backs was written |
| `UserCopy.LoadedSight` | kernel/memory/memory.c:501-549 | faulting a page in shows its process what it would have read, and others nothing |
| `UserCopy.CowSight` | kernel/trap/tlb_exception.c:9-28 | breaking sharing shows nobody a difference |
| `UserCopy.StoreSeen` | kernel/memory/memory.c:626-634 | a store into a page with one mapping is seen at the bytes written by its process, and nowhere else |
| `UserCopy.TouchAll` | kernel/memory/memory.c:501-549 | page faults at any sequence of addresses, in any order, each served by passiveAlloc: exactly the touched pages that were not there appear, each with the bytes that loading the whole program at once would have put there |
| `UserSet.MemsetOut` | kernel/memory/memory.c:641-668 | the call is a sequence of faults and writes that set the range piece by piece, at a marked page through the page it had before; where the pages that are not marked are mapped once and no page appears twice in the range, it sets the range and nothing else that anybody sees if and only if every byte of it on a marked page has the value already; fails only at an address that nothing backs |
| `UserSet.StrayTurn` | kernel/memory/memory.c:657-662 | a turn at a marked page is seen by everybody else who has the page, at the bytes set, and not by the process |
| `UserSet.SetIff` | kernel/memory/memory.c:641-668 | the exact condition, from what everybody sees afterwards |
| `Bitmap.LowestFound` | include/types.h:60-94 | the search by halving, on the complement of a word, ends at its lowest set bit |
| `Bitmap.LowBit64` | include/types.h:60-94 | the lowest set bit of any non-zero word |
| `Bitmap.AllocBit` | kernel/fs/inode.c:23-36 | the first clear bit of the first word with one becomes set and no other bit changes; not found exactly when all are set |
| `Bitmap.FreeBit` | kernel/fs/inode.c:43-47 | exactly one bit is cleared |
| `ClusterIndex.Boundaries` | include/inode.h:27-33 | the level boundaries are 8, 1032 and 164872 |
| `ClusterIndex.Coords2` | kernel/fs/inode.c:108-113 | a second-level position is its block and its place in the block |
| `ClusterIndex.Coords3` | kernel/fs/inode.c:115-121 | a third-level position is its top entry, middle entry and place |
| `ClusterIndex.Cache1Inv` | kernel/fs/inode.c:135-143 | caching a direct position keeps the index of every file |
| `ClusterIndex.Cache2Inv` | kernel/fs/inode.c:145-155 | caching a second-level position does; the node is the block's own or fresh |
| `ClusterIndex.Cache3Inv` | kernel/fs/inode.c:156-171 | caching a third-level position does; nodes of different files never alias |
| `ClusterIndex.Index.InodeAlloc` | kernel/fs/inode.c:23-36 | the lowest unused node |
| `ClusterIndex.Index.MetaFindInode` | kernel/fs/inode.c:97-123 | the one-, two- or three-level lookup makes the pos-th cluster of the file's list current, for every cached position |
| `ClusterIndex.Index.MetaCacheInode` | kernel/fs/inode.c:132-172 | the file's list grows by the cluster, no other file's list changes, and exactly the nodes a new block needs are taken |
| `ClusterIndex.Index.MetaFreeInode` | kernel/fs/inode.c:54-89 | the file's list becomes empty, no other file's does, and exactly the nodes its loops reach with the bases they compute are released |
| `ClusterIndex.FreesAllIff` | kernel/fs/inode.c:54-89 | metaFreeInode releases all nodes of a file if and only if the file has at most 1032 cached clusters |
| `ClusterIndex.LeakWitness` | kernel/fs/inode.c:69 | a file of 1033 clusters loses its two third-level nodes |
| `ClusterIndex.Index.constructor` | kernel/fs/fat.c:1196-1206 | the empty pool with one record per file, the first cluster counted as cached even when there is none |
| `ClusterIndex.StartedInv` | kernel/fs/fat.c:407-413 | starting a file that has no cluster keeps the index of every file, also when its record came from disk |
| `FatHeap.ChainsDisjoint` | kernel/fs/fat.c:269-321 | chains are acyclic and disjoint |
| `FatHeap.MarkedInv` | kernel/fs/fat.c:154-185 | marking a clear cluster as a chain of its own keeps bitmap and table in step and takes one cluster from the free ones |
| `FatHeap.JoinedInv` | kernel/fs/fat.c:300-306 | hanging that cluster at a chain's tail keeps the chains apart and accounts for it |
| `FatHeap.EmptiedInv` | kernel/fs/fat.c:807-820 | giving a chain back keeps the heap and makes exactly its clusters free |
| `FatVolume.SectorsDistinct` | kernel/fs/fat.c:23-26 | different sectors of different clusters have different numbers |
| `FatVolume.SectorsInOrder` | kernel/fs/fat.c:23-26 | cluster 2 begins where the data area does, sectors follow one another, and each cluster begins where the one before ends |
| `FatVolume.RwClusWrite` | kernel/fs/fat.c:214-258 | the sector loop writes exactly the bytes asked for into the cluster, across sector boundaries |
| `FatVolume.RwClusRead` | kernel/fs/fat.c:214-258 | and reads exactly those |
| `FatVolume.ZeroClus` | kernel/fs/fat.c:134-146 | every byte of the cluster is zero |
| `FatVolume.Volume.constructor` | kernel/fs/fat.c:1410-1427 | after the loop a bit is set exactly if the table entry is not zero; with a well-formed table and records as a mount makes them the volume is then valid |
| `FatVolume.Mounted` | kernel/fs/fat.c:1196-1206 | a well-formed table, and for each file the record that readDentryInfo makes, are what every operation asks for |
| `FatVolume.IndexAgreesIff` | kernel/fs/fat.c:1196-1206 | every cached position of a file gives the cluster of its chain if and only if the file has a first cluster or nothing is cached |
| `FatVolume.Volume.ReadFat` | kernel/fs/fat.c:82-103 | the entry; the end mark for itself and zero beyond the table |
| `FatVolume.Volume.WriteFat` | kernel/fs/fat.c:113-126 | one entry changes, or none beyond the table |
| `FatVolume.Volume.AllocClus` | kernel/fs/fat.c:154-185 | the lowest clear cluster becomes an end of chain, marked and zeroed; no other cluster's bytes change; the panic exactly when no cluster is clear |
| `FatVolume.Volume.ExtendChain` | kernel/fs/fat.c:300-306 | the file gains one zeroed cluster at its end, every byte of every file stays |
| `FatVolume.Volume.Advance` | kernel/fs/fat.c:298-318 | one turn of the walk: one more position of the chain is cached, or the chain's end found |
| `FatVolume.Volume.RelocClus` | kernel/fs/fat.c:269-321 | lands on the cluster that a walk of the chain reaches for the offset; -1 exactly past the chain's end without permission to extend; with it the chain has just the length needed |
| `FatVolume.Volume.MoveTo` | kernel/fs/fat.c:283-294 | an already cached position is found without walking |
| `FatVolume.GrewBytes` | kernel/fs/fat.c:296-319 | growing a file keeps every byte of every file, and the new bytes are zero |
| `FatVolume.GrewFree` | kernel/fs/fat.c:296-319 | used and free clusters are conserved |
| `FatVolume.AtChain` | kernel/fs/fat.c:298-312 | at the last cached cluster the table entry names the next cluster of the chain, or the end exactly when the chain ends |
| `FatFiles.ClusterWrote` | kernel/fs/fat.c:415-429 | rewriting part of one cluster of a file is a write to that range of the file, and to no other file |
| `FatFiles.RwAt` | kernel/fs/fat.c:214-258 | the write of one turn, at the place relocClus left |
| `FatFiles.FirstCluster` | kernel/fs/fat.c:407-413 | a file without clusters gets one, with record and index agreeing |
| `FatFiles.MetaWrite` | kernel/fs/fat.c:396-438 | refuses a read-only file and an offset that wraps; else exactly the range of the file becomes the bytes given, the size becomes the larger of old size and range end, and no byte of any other file changes |
| `FatFiles.MetaRead` | kernel/fs/fat.c:333-384 | the file's bytes from the offset on, clipped at its size; none for a directory or an offset that is past the size or wraps; nothing changes |
| `FatFiles.MetaTrunc` | kernel/fs/fat.c:807-820 | exactly the file's clusters become free, its size and first cluster become zero, no other file notices |
| `FatFiles.FreeClus` | kernel/fs/fat.c:193-200 | entry zero and bit clear |
| `FatFiles.FreedNext` | kernel/fs/fat.c:811-816 | every entry is read before it is cleared, so the loop of metaTrunc follows the whole chain |
| `FatFiles.WriteSplices` | kernel/fs/fat.c:396-438 | after a write at most at the file's size, the file is its old bytes with the range replaced |
| `FatFiles.WriteKeeps` | kernel/fs/fat.c:396-438 | and every other file is the same byte sequence |
| `FatFiles.ReadsBack` | kernel/fs/fat.c:333-438 | reading a written range gives the bytes written |
| `LongNames.CalChecksum` | kernel/fs/fat.c:572-580 | the checksum of the short name ("FAT Long Directory Entries") |
| `LongNames.SumRotates` | kernel/fs/fat.c:572-580 | it starts at zero, and each byte is added, modulo 256, to the sum so far turned right by one bit |
| `LongNames.LongLayout` | kernel/fs/fat.c:640-671 | where everything of a long entry stands: part number, attribute 0x0F, checksum, and thirteen 16-bit characters at 1, 14 and 28, the name's, then a zero, then 0xFFFF |
| `LongNames.ShortLayout` | kernel/fs/fat.c:676-684 | where everything of a short entry stands: name, attribute, the halves of the cluster number at 20 and 26, the size at 28 |
| `LongNames.MakeLong` | kernel/fs/fat.c:640-671 | one long entry: order byte with the last-part flag, 13 characters, end mark and padding, checksum, attribute |
| `LongNames.GenerateShortName` | kernel/fs/fat.c:505-564 | the first eight characters before the last dot and the first three after it, without spaces and dots, mapped to upper case and underscores and filled up with spaces; without a dot the first eight of the name |
| `LongNames.MappedIs` | kernel/fs/fat.c:507-555 | lower case becomes upper case, each of + , ; = [ ] an underscore, and every other character stays |
| `LongNames.KeptOne` | kernel/fs/fat.c:517-555 | spaces and dots are left out, and everything else is taken over, mapped |
| `LongNames.InfoRoundTrip` | kernel/fs/fat.c:1196-1206 | attribute, first cluster and size survive the split fields of the short entry |
| `LongNames.Snstr` | kernel/util/string.c:125-134 | the characters before the first zero, then zeros, one fewer than asked for when it stops early |
| `LongNames.ReadDentryName` | kernel/fs/fat.c:1153-1188 | a long entry's three groups go to their place in the buffer; a short entry gives base, dot, extension |
| `LongNames.GroupsAt` | kernel/fs/fat.c:1153-1188 | the three groups are read from where the layout has them |
| `LongNames.ShortNameIs` | kernel/fs/fat.c:1163-1187 | a short entry spells its base, or base, dot and extension |
| `LongNames.ConsumeEntry` | kernel/fs/fat.c:1227-1275 | what the scan does about one entry: hole, volume label, part of a name, or the file itself |
| `LongNames.ScanFile` | kernel/fs/fat.c:1217-1277 | a scan that has passed free entries reports them, never a file |
| `LongNames.PartRead` | kernel/fs/fat.c:1153-1188 | reading part i puts its characters in place and leaves the earlier parts |
| `LongNames.ScanParts` | kernel/fs/fat.c:1217-1277 | the long entries of a file, last part first, leave its name in the buffer |
| `LongNames.RoundTripIff` | kernel/fs/fat.c:590-688 | entries of a name of at most 255 characters are read back as the same name, cluster, size, attribute and count if and only if the name has at most 247 characters, the short name does not begin with the free mark and the attribute is not that of a long entry |
| `LongNames.RoundTrip` | kernel/fs/fat.c:1153-1277 | every ASCII name of 1 to 247 characters comes back |
| `LongNames.TooLong` | kernel/fs/fat.c:1251-1263 | with 248 to 255 characters the scan stores outside its name buffer |
| `Directories.EntryInside` | kernel/fs/fat.c:590-688 | a 32-byte entry at a multiple of 32 never crosses a cluster boundary |
| `Directories.PutParts` | kernel/fs/fat.c:636-675 | the loop over the parts writes all long entries, last part first, and nothing else |
| `Directories.MakeDentry` | kernel/fs/fat.c:590-688 | past the first two entries: the long entries, then the short one, in the directory's bytes at the offset, extending its chain as needed; at offsets 0 and 32 the dot entries; no other byte of any file changes |
| `Directories.DirMetaNext` | kernel/fs/fat.c:1217-1277 | agrees with the scan of the directory's bytes from the offset, across cluster boundaries, and changes nothing |
| `Directories.MadeIsFound` | kernel/fs/fat.c:590-688 | a file made past the first two entries is found again at its offset with the same name, attribute, cluster, size and number of entries |
| `BlockCache.Group.constructor` | kernel/fs/bio.c:27-44 | binit builds a circular list of 16 unused buffers, all with the zero key and none valid |
| `BlockCache.Cache.constructor` | kernel/fs/bio.c:27-44 | all 1024 groups are so, and the whole cache agrees with the disk |
| `BlockCache.Group.Search` | kernel/fs/bio.c:60-70 | the first buffer of the list with the key, or none if there is none |
| `BlockCache.Group.Victim` | kernel/fs/bio.c:75-87 | the unused buffer that fell out of use longest ago, or that there is none |
| `BlockCache.Group.Bget` | kernel/fs/bio.c:54-88 | the buffer found, counted once more, or the oldest unused one with the new key; the panic exactly when neither exists, without change |
| `BlockCache.Group.Bread` | kernel/fs/bio.c:97-111 | a buffer with the key that holds the block, unless bget panics |
| `BlockCache.Group.Bwrite` | kernel/fs/bio.c:118-126 | the disk's block becomes the buffer's data, written through |
| `BlockCache.Group.ToFront` | kernel/fs/bio.c:141-146 | the relinking moves the buffer to the front and keeps the others in order |
| `BlockCache.Group.Brelse` | kernel/fs/bio.c:134-148 | the count drops; the last release moves the buffer to the front, the others keep their order, and makes it the youngest unused one |
| `BlockCache.OneLivePerKey` | kernel/fs/bio.c:54-88 | at most one buffer per key is valid or in use, although all start with the zero key |
| `BlockCache.RecycledInv` | kernel/fs/bio.c:75-85 | giving an unused buffer a new key keeps the list, the age order and coherence |
| `BlockCache.DroppedFirstWins` | kernel/fs/bio.c:134-148 | moving a released buffer to the front keeps the live buffer of each key before every stale one |
| `BlockCache.DroppedAged` | kernel/fs/bio.c:134-148 | and keeps the unused buffers in the order of their last release |
| `BlockCache.Cache.Bread` | kernel/fs/bio.c:97-111 | over all groups: the block as the disk has it, or as its holder has changed it, whatever came before; other groups untouched |
| `BlockCache.Cache.Change` | kernel/fs/fat.c:221-256 | a holder changes its buffer and the whole cache stays valid, the buffer being the one that differs from the disk until it is written |
| `BlockCache.Cache.Bwrite` | kernel/fs/bio.c:118-126 | every group keeps agreeing with the disk after a block is written |
| `BlockCache.Cache.Brelse` | kernel/fs/bio.c:134-148 | the whole cache stays valid after a release |
| `BlockCache.WriteAgreesIff` | kernel/fs/bio.c:97-126 | writing through a buffer leaves every valid buffer agreeing with the disk, whatever is written, if and only if no other one is for the same block number |
| `BlockCache.OneDeviceAgrees` | kernel/fs/bio.c:54-126 | with one device number in use the invariant gives that for every buffer |
| `Virtio.Disk.constructor` | kernel/driver/virtio.c:85-96 | the queue starts with every descriptor free and blank |
| `Virtio.Disk.AllocDesc` | kernel/driver/virtio.c:108-120 | the first free descriptor, or none when all are taken |
| `Virtio.Disk.FreeDesc` | kernel/driver/virtio.c:127-138 | one descriptor becomes blank and free |
| `Virtio.Disk.FreeDescChain` | kernel/driver/virtio.c:146-159 | following the next links frees exactly the three descriptors of the request |
| `Virtio.Disk.Alloc3Desc` | kernel/driver/virtio.c:168-182 | three free descriptors, exactly when at most one request is outstanding; otherwise everything is as before |
| `Virtio.Disk.Submit` | kernel/driver/virtio.c:190-263 | a new chain of three descriptors is published in the next place of the ring, and a device that reads them by the numbers of VIRTIO 1.0 finds the transfer asked for; the buffer's flag is set; the invariant holds afterwards if and only if the flag was clear |
| `Virtio.Disk.Finish` | kernel/driver/virtio.c:265-275 | a clear flag means this request was noticed; its three descriptors become free |
| `Virtio.Disk.NoticeOne` | kernel/driver/virtio.c:297-309 | one completion clears the flag of the buffer that started that chain, with status 0 |
| `Virtio.Disk.Interrupt` | kernel/driver/virtio.c:281-311 | every completion so far is noticed, and a buffer's flag stays set exactly while some request for it has not returned |
| `Virtio.AtMostTwo` | kernel/driver/virtio.c:168-182 | eight descriptors make at most two outstanding requests |
| `Virtio.FewInRings` | kernel/driver/virtio.c:190-311 | neither ring is ever more than two entries behind |
| `Virtio.ModuloTest` | kernel/driver/virtio.c:297 | the driver's comparison modulo 8 of two 16-bit counters equals the comparison of the unbounded counters, also across their wrap |
| `Virtio.CompletedTransfer` | kernel/driver/virtio.c:212-246 | the device, which follows a link, writes a buffer and refuses an indirect table by the flag bits of sections 2.4.5 and 5.2.6 of VIRTIO 1.0, makes the transfer that was asked for, writes status 0 and touches nothing else |
| `Virtio.OrderIs` | kernel/driver/virtio.c:212-246 | what such a device reads at the head of any request in the tables is that request: kind, sector, buffer and status byte |
| `Virtio.ServedIff` | include/virtio.h:70-81 | when that device serves a request at all, bit by bit, and what it then makes of it (sections 2.4.5 and 5.2.6 of VIRTIO 1.0) |
| `Virtio.BusyIff` | kernel/driver/virtio.c:249-306 | a buffer's flag is set exactly while a request for it has not been noticed |
| `Virtio.FreeCount` | kernel/driver/virtio.c:108-182 | free descriptors are 8 less three per outstanding request |
| `Virtio.SubmittedInv` | kernel/driver/virtio.c:190-263 | submitting keeps the protocol invariant, for a buffer without a request |
| `Virtio.SubmittedInvIff` | kernel/driver/virtio.c:190-263 | if and only if the buffer's flag is clear |
| `Virtio.CompletedInv` | kernel/driver/virtio.c:190-311 | so does a completion by the device |
| `Virtio.NoticedInv` | kernel/driver/virtio.c:297-309 | so does noticing one |
| `Virtio.FreedInv` | kernel/driver/virtio.c:265-275 | so does freeing the chain of a noticed request |
| `Virtio.MoveInvIff` | kernel/driver/virtio.c:190-311 | a move of a thread, the handler or the device keeps the invariant if and only if it does not submit a buffer with a request; in a good state no chain is freed early |
| `Virtio.RunInv` | kernel/driver/virtio.c:190-311 | in every state of every interleaving, up to the first submission of a buffer with a request, each descriptor is free or in exactly one request of three |
| `Virtio.RunInvIff` | kernel/driver/virtio.c:190-311 | a run keeps the invariant throughout if and only if no request is submitted for a buffer that has one |
| `Virtio.SharingHarms` | kernel/driver/virtio.c:265-309 | from every such submission there is a run that frees a chain which is still offered to the device or held by it |
| `Virtio.ConcurrentReads` | kernel/fs/bio.c:97-111 | two reads of one uncached block are such a run, from boot |
| `Pipe.Buffer.PutByte` | kernel/fs/pipe.c:147-150 | one byte joins the end of what is unread |
| `Pipe.Buffer.WriteSome` | kernel/fs/pipe.c:111-175 | bytes go in, in order, until all are in or the ring is full |
| `Pipe.Buffer.ReadSome` | kernel/fs/pipe.c:185-230 | the oldest unread bytes, as many as asked for and present |
| `Pipe.StepInv` | kernel/fs/pipe.c:111-230 | every step of every thread, with sleep and wakeup taken apart into lock operations, keeps the invariant |
| `Pipe.Run` | kernel/process/thread.c:346-396 | every schedule of any number of readers and writers stays within the invariant |
| `Pipe.ReadsArePrefix` | kernel/fs/pipe.c:111-230 | under every schedule what was read is a prefix of what was written and nread <= nwrite <= nread + 65536 |
| `Pipe.NoLostWakeup` | kernel/fs/pipe.c:111-230 | whenever the pipe lock is free, a thread asleep on nread means an empty pipe and one asleep on nwrite a full one |
| `Pipe.NeverBothWait` | kernel/fs/pipe.c:111-230 | a reader and a writer are never both waiting |
| `Pipe.ReadReturns` | kernel/fs/pipe.c:185-230 | under every schedule a read returns the contiguous stretch that it took out, and not nothing if it asked for something |
| `Pipe.WriteReturns` | kernel/fs/pipe.c:132-176 | under every schedule a write call that ends has put all its bytes in, however often it slept |
| `Pipe.SomeoneMoves` | kernel/process/thread.c:346-396 | the two kinds of lock never deadlock: while a thread is neither idle nor asleep, some thread can move |
| `Pipe.WriteAlone` | kernel/fs/pipe.c:111-180 | from any reachable quiet state, a write that fits, by a thread that nobody disturbs, puts all its bytes in, wakes exactly the sleeping readers, and leaves the lock free |
| `Pipe.ReadAlone` | kernel/fs/pipe.c:185-230 | likewise a read takes the oldest bytes out, as many as it asks for if there are so many, and wakes exactly the sleeping writers |
| `Pipe.WriteBlocks` | kernel/fs/pipe.c:140-144 | a write to a full pipe wakes exactly the sleeping readers, sleeps with all its bytes to go and leaves the lock free |
| `Pipe.ReadBlocks` | kernel/fs/pipe.c:201-204 | a read of an empty pipe sleeps and wakes nobody |
| `Pipe.Resumes` | kernel/process/thread.c:358-373 | a sleeper that was woken takes the lock again when it is free and looks again, with what it had |
| `Locks.NestingRestores` | kernel/trap/interrupt.c:11-45 | after any well-nested pushes and pops the depth is the number of open pushes, interrupts are off inside and as at first outside |
| `Locks.NoPanicIff` | kernel/trap/interrupt.c:28-45 | over every sequence of pushes and pops: none panics if and only if no pop lacks its push, or interrupts were off at first and at most one does |
| `Locks.BalancedIff` | kernel/process/thread.c:28-38 | pushes and their pops leave interrupts as they were if and only if the depth was zero or they were off |
| `Locks.Spinlock.TryAcquire` | kernel/util/spinlock.c:14-36 | the lock is taken exactly if it was free; only this hart's nesting changes |
| `Locks.Spinlock.Release` | kernel/util/spinlock.c:38-58 | the holder frees the lock and neither panic happens |
| `Lists.ListHeap.InsertHead` | include/queue.h:78-84 | the element becomes first of its list; links of all lists stay right |
| `Lists.ListHeap.InsertTail` | include/queue.h:86-103 | the element becomes last, found by walking the list |
| `Lists.ListHeap.Remove` | include/queue.h:105-113 | the element leaves its list, which the operation does not name, and the others keep their order |
| `Lists.FrontInv` | include/queue.h:78-84 | head insertion keeps the link invariant of all lists |
| `Lists.TailInv` | include/queue.h:86-103 | tail insertion does |
| `Lists.RemovedInv` | include/queue.h:105-113 | removal does, and the element is then in no list |
| `Scheduler.Kernel.FifoSched` | kernel/process/process.c:485-523 | with some awake queued thread the rotating scan ends; it runs an awake thread that was not killed, others change only by being destroyed when killed or woken by such a death, and when all are awake it runs the first of the lowest non-empty queue (POSIX.1-2017, XSH 2.8.4); all of it is a run of steps |
| `Scheduler.Kernel.Sweep` | kernel/process/process.c:492-511 | one sweep finds an awake head, or destroys a killed thread, or turns every queue once |
| `Scheduler.Nearer` | kernel/process/process.c:485-523 | a sweep that finds and destroys nothing brings every awake thread nearer to its queue's head |
| `Scheduler.Kernel.Switch` | kernel/process/process.c:515-522 | the chosen thread leaves its queue and its futex slots and runs; its channel is cleared, as sleep does where it goes on |
| `Scheduler.WithoutSplits` | kernel/process/process.c:515-522 | leaving a queue takes the first occurrence out, and the others keep their order |
| `Scheduler.PickedInv` | kernel/process/process.c:515-522 | picking a thread that was not killed keeps queues, slots and lists in step |
| `Scheduler.Kernel.CallYield` | kernel/process/process.c:531-563 | a running thread goes to the tail of queue 99 - priority and nothing runs; it is the step of a run |
| `Scheduler.Kernel.TimeYield` | kernel/process/process.c:568-599 | a preempted SCHED_FIFO thread goes to the head of queue 99 - priority, a SCHED_OTHER one to its tail; no other queue and no other thread changes; it is the step of a run |
| `Scheduler.Kernel.Tick` | kernel/process/process.c:568-599 | timeYield with the scheduler: with all awake, the thread goes on exactly if no queue before its own holds anybody and, unless it is SCHED_FIFO, its own does not either |
| `Scheduler.TickIff` | kernel/process/process.c:568-599 | the same of states |
| `Scheduler.RoundRobin` | kernel/process/process.c:568-599 | while only the timer acts, the SCHED_OTHER threads of the highest priority run in turn: the n-th of the line n ticks later, and after one round the line is as it was |
| `Scheduler.Kernel.Sleep` | kernel/process/thread.c:346-373 | a running thread sleeps on the channel, unqueued, and nothing runs; one that was killed while it ran sleeps too, still queued, and is destroyed next; the invariant holds afterwards if and only if it was not killed |
| `Scheduler.SleptIff` | kernel/process/thread.c:346-373 | sleeping keeps the invariant if and only if the thread still counts as running, that is, was not killed meanwhile |
| `Scheduler.Kernel.Wakeup` | kernel/process/thread.c:381-396 | exactly the sleepers of the channel become runnable, and nobody queued loses a place to them |
| `Scheduler.WakeupWakesAll` | kernel/process/thread.c:381-396 | the list walked holds every thread in use, so no sleeper of the channel is missed, and each is queued once |
| `Scheduler.WakeupSparesWaiters` | kernel/process/thread.c:368-396 | waking a channel leaves every futex waiter as it is, also one that has slept on a channel before |
| `Scheduler.Kernel.Fork` | kernel/process/process.c:734-824 | the child has the parent's policy and priority and the tid address given, and goes to the tail of the parent's queue; the invariant holds afterwards if and only if it succeeded or no record was free |
| `Scheduler.Kernel.Create` | kernel/process/process.c:352-401 | the first thread, or another without a parent, is queued at priority 0; likewise |
| `Scheduler.Kernel.constructor` | kernel/process/thread.c:86-108 | at boot every thread is spare, lowest number first, and the invariant holds |
| `Scheduler.BootInv` | kernel/process/thread.c:86-108 | the boot state satisfies the invariant and nothing runs |
| `Scheduler.Kernel.Kill` | kernel/process/signal.c:300-310 | SIGKILL queues a thread that is not queued, whatever it was doing; the invariant holds afterwards if and only if it waited on no futex |
| `Scheduler.KilledIff` | kernel/process/signal.c:300-310 | the same of states |
| `Scheduler.Kernel.Nap` | kernel/trap/syscall.c:1162-1171 | nanosleep: the thread stays queued with the time before which it is not picked |
| `Scheduler.StartedInv` | kernel/process/thread.c:125-186 | a new thread comes from the spare list into the used list and its queue |
| `Scheduler.Kernel.FutexWait` | kernel/util/futex.c:13-38 | the lowest free slot names the thread, which sleeps or, with a timeout, stays queued until it; one that was killed while it ran leaves its queue unless it has a timeout; the panic exactly when no slot is free; the invariant holds afterwards if and only if the kernel panicked or the thread had not been killed |
| `Scheduler.Kernel.FutexWake` | kernel/util/futex.c:41-59 | exactly the first n waiters of the address in slot order, or all for a negative n, become runnable and lose their slots |
| `Scheduler.ChosenCount` | kernel/util/futex.c:41-59 | those that wake are n of the waiters of the address, or all if there are fewer or n is negative |
| `Scheduler.FirstOnes` | kernel/util/futex.c:41-59 | and they are the first: no waiter in a lower slot is passed over |
| `Scheduler.Kernel.FutexRequeue` | kernel/util/futex.c:61-85 | the first n wake, the others of the address move to the new one |
| `Scheduler.Kernel.FutexClear` | kernel/util/futex.c:87-96 | every slot of the thread is given up |
| `Scheduler.WakeSlotInv` | kernel/util/futex.c:45-56 | waking one waiter keeps queues and slots |
| `Scheduler.WaitedInv` | kernel/util/futex.c:13-38 | waiting keeps at most one slot per thread |
| `Scheduler.Kernel.SetScheduler` | kernel/process/sched.c:54-71 | refused for SCHED_OTHER with a priority; else a queued thread moves to the head of its new queue |
| `Scheduler.RescheduledInv` | kernel/process/sched.c:54-71 | a rescheduled thread is in exactly the queue of its new priority |
| `Scheduler.HeadIsTailIff` | kernel/process/sched.c:64-69 | the head of the new queue, where the code puts the thread, is the tail that POSIX asks for if and only if the thread is not queued or the queue holds no other |
| `Scheduler.Kernel.ThreadFree` | kernel/process/thread.c:40-71 | the thread is gone, its record is the first spare one, at most one futex waiter woke, nothing else happened; it is a run of steps |
| `Scheduler.Kernel.Exit` | kernel/process/thread.c:282-297 | the current thread, running or killed while it ran, is freed and nothing runs |
| `Scheduler.RetiredIff` | kernel/process/thread.c:66-71 | threadFree keeps the invariant if and only if the thread holds no futex slot |
| `Scheduler.DeadWaiter` | kernel/process/thread.c:66-71 | a waiter that dies with its slot is put back into a run queue by a later wake, while its record is free |
| `Scheduler.Stray` | kernel/process/thread.c:125-160 | a record marked runnable that no queue holds breaks the invariant |
| `Scheduler.StepInvIff` | kernel/process/process.c:485-599 | a kernel step keeps the invariant if and only if it does not kill or destroy a thread that waits on a futex and is not the sleep of a thread killed while it ran |
| `Scheduler.RunInv` | kernel/process/process.c:485-599 | in every state of every run from boot, up to the first such step, the invariant holds |
| `Scheduler.RunInvIff` | kernel/process/process.c:485-599 | a run from boot keeps it throughout if and only if it has no such step |
| `Scheduler.KilledWaiter` | kernel/process/signal.c:300-310 | a run of four steps from boot that has one, and ends in a broken state |
| `Scheduler.KilledSleeper` | kernel/process/thread.c:346-357 | a run of four steps from boot in which a thread sleeps after it was killed, and which ends in a broken state |
| `Scheduler.RunnableIffQueued` | kernel/process/process.c:485-599 | a thread is runnable exactly if it occurs in queue 99 - priority, there once, and in no other |
| `Signals.Signals.constructor` | kernel/process/signal.c:55-62 | all 4096 contexts are free, the last one first, and no thread has any: the state that runs begin in |
| `Signals.Signals.Send` | kernel/process/signal.c:293-314 | a free context joins the tail of the pending list; refused exactly when none is free |
| `Signals.Signals.FirstPending` | kernel/process/signal.c:90-99 | the oldest pending signal that is not blocked, if any |
| `Signals.Signals.HandleOne` | kernel/process/signal.c:205-231 | with a handler: epc is the handler, ra the trampoline 0x3F_FFFF_D000, sp the largest multiple of 4096 not above the old one, the other registers as before, the signal and the action's mask blocked as well, and the context on top of the handling list holds what was interrupted; without: the context is free again |
| `Signals.DeliverIs` | kernel/process/signal.c:213-231 | the same of every delivery in a run, and what becomes of the action |
| `Signals.Signals.ProcMask` | kernel/process/signal.c:263-281 | blocks, unblocks or replaces the mask by the three numbers of the interface and gives the old one, or -1 without change |
| `Signals.Signals.SigAction` | kernel/process/signal.c:246-261 | puts the action of a signal from 1 to 64 into force, or -1 without change |
| `Signals.Signals.HandleSignal` | kernel/process/signal.c:198-232 | ends, with every pending signal blocked; what it pushed unwinds to the frame and mask at its start |
| `Signals.Signals.SigReturn` | kernel/process/signal.c:234-245 | restores from the innermost handling context and frees it |
| `Signals.Signals.ThreadFree` | kernel/process/thread.c:43-50 | the two loops of threadFree: every context of the thread becomes free, first pending then handling, each to the head of the free list; no other thread notices |
| `Signals.LeftIs` | kernel/process/thread.c:43-50 | what those loops leave, context by context |
| `Signals.ShiftedPartition` | kernel/process/signal.c:70-88 | moving a context between lists keeps every context in exactly one list |
| `Signals.AfterInv` | kernel/process/signal.c:198-314 | every send, delivery, drop, return, end of a thread and setting up of its record keeps the 4096 contexts partitioned among free, pending and handling lists |
| `Signals.StackAfter` | kernel/process/signal.c:198-245 | delivery pushes what it interrupts, return puts the top into force and pops it, the thread's end clears the stack, and no other event touches it |
| `Signals.RunInv` | kernel/process/signal.c:198-314 | over every run from boot the partition holds |
| `Signals.Below` | kernel/process/signal.c:198-245 | while the stack stays at least n deep its n lowest entries stay the same |
| `Signals.ReturnRestores` | kernel/process/signal.c:198-245 | the return that takes the stack back to its depth before a delivery restores the trap frame and the mask in force at that delivery |
| `Signals.ResetIff` | kernel/process/signal.c:224-228 | after a delivery a further pending signal of the same number finds its handler if and only if bit 0x0004 of the action's flags is clear; the action tables change if and only if it is set |
| `NumberText.PutDigits` | user/print.c:154-170 | the digits, least significant first |
| `NumberText.TurnRound` | user/print.c:199-220 | a reversal in place |
| `NumberText.PrintNum` | user/print.c:147-224 | from the left: sign, digits, spaces; or sign, zeros, digits; or padding, sign, digits; as wide as asked for or wider, then a zero |
| `NumberText.RawText` | user/print.c:147-224 | turning the right part of the raw characters round gives the text as read |
| `NumberText.PutBuffer` | user/print.c:87-97 | the string with a carriage return before each line feed |
| `NumberText.CrlfSplits` | user/print.c:87-97 | text without line feeds is left alone, and each line feed gets a carriage return before it |
| `NumberText.PrintInt` | user/print.c:313-332 | the %d path prints the number's text within its 256-byte buffer |
| `NumberText.Atoi` | user/string.c:31-47 | the value of the text after spaces and one sign, for a text whose accumulation never overflows |
| `NumberText.FoldDigits` | user/string.c:36-46 | reading the digits of a number gives its negative without leaving int's range |
| `NumberText.TextReads` | user/print.c:313-332 | for every 32-bit number, every width and every padding, atoi of what %d leaves in its buffer is the number, and no step of it overflows |
| `NumberText.DigitsNumber` | user/print.c:154-170 | in every base the printed digits stand for the number |
| `NumberText.DigitsShape` | user/print.c:154-170 | each is below the base, in the case asked for, and the first is zero only for zero |
| `NumberText.Characters` | user/print.c:154-170 | the numbers that stand for characters are those of the characters in the source |
| `NumberText.ValueIs` | user/string.c:31-47 | a text of white space, a sign or none, digits and something else is read as the number that the digits stand for |
| `WordStrings.ZeroByteIff` | user/string.c:13-17 | HASZERO is non-zero exactly if one of the eight bytes is zero: a borrow raises no false alarm |
| `WordStrings.JoinHolds` | user/string.c:102-120 | on a word xored with a byte repeated, exactly if one of the eight bytes is that byte |
| `WordStrings.WordHolds` | user/string.c:102-120 | the same of a word of memory |
| `WordStrings.Strlen` | user/string.c:86-100 | the distance to the first zero, though whole words are read |
| `WordStrings.Memchr` | user/string.c:102-120 | the first occurrence among n bytes, or that there is none |

## Left out

Contracts that are weaker than what the source is meant for, or that ask for more than it does:

- KernelMemory.Memory.PageMap: the mappings that the kernel makes in its own page directory are only counted, in `kernel`, and that directory is not part of the forest.
- KernelMemory.Memory.KernelKeep: stands for pageInsert into the kernel's own page directory; the table pages that this may take are not modelled.
- LazyLoading.PassiveAlloc: asks for enough free pages, without which the code panics or uses a page it did not get; it covers the panic on an address that nothing backs as `ok == false`; files are byte sequences and reads of them succeed.
- UserCopy.Reach: asks for three free pages, without which faults panic, and that a page mapped without the user bit is not one that a segment backs, which the code would map over.
- UserCopy.Copyin: asks the same for each page of the range.
- UserCopy.Copyout: asks the same; what the process then sees, and the deep-copy run, are stated under the condition on the pages that `KernelWriteIff` shows to be exact.
- UserCopy.TouchAll: asks for three free pages for each address and that something backs it; the code panics otherwise.
- CopyOnWrite.MemsetOutOnCowPage: one byte at a marked page; `UserSet.MemsetOut` is the whole loop.
- UserSet.MemsetOut: asks the same as Copyout; what everybody then sees is stated where no physical page appears twice in the range and the pages that are not marked are mapped once.
- SharedMemory.Segments.Attach: asks that the segment fits below the user stack; the code does not check it.
- SharedMemory.Segments.Alloc: asks for enough free pages, since the code does not check pageAlloc; the range of kernel addresses is not bounded.
- ClusterIndex.Index.InodeAlloc: asks for an unused node, without which the code reads past the bitmap.
- ClusterIndex.Index.MetaCacheInode: asks for free index nodes likewise, and for a position below the top of the third level, where the code drops the cluster.
- ClusterIndex.Index.MetaFreeInode: does not release every node above 1032 clusters, because the code does not; `FreesAllIff` gives the exact condition.
- FatVolume.Volume.AllocClus: scans single bits where the code scans words and then halves; `Bitmap.AllocBit` proves that search. The table describes exactly the data area, so clusters beyond it are never picked.
- FatFiles.MetaWrite: assumes that copying from the user's buffer succeeds, so the count returned is the length asked for.
- FatFiles.MetaRead: likewise; the ZERO and OSRELEASE pseudo-files are not covered.
- Directories.DirMetaNext: the offset is unbounded, where the code's wraps at 4 GB.
- BlockCache.Cache.Bread: one device, one caller at a time; a block number that the disk has.
- BlockCache.Group.Bwrite: models the branch that writes through; the other one never writes back.
- BlockCache.Group.Brelse: asks that the last holder has written its changes, as write-through callers do.
- Virtio.Disk.Submit: false stands for the sleep on the descriptors.
- Scheduler.Kernel.FifoSched: the clock stands still during one call, and some queued thread is awake, without which the C loop spins.
- Scheduler.Kernel.Fork: taking the record and queueing it are two statements of one method and one step of a run; in between the kernel is not interrupted, and a state in between is that of `Stray`.
- Scheduler.Kernel.Sleep: the part before the scheduler; what sleep does when it goes on is in `Switch`, and the threadDestroy of a killed thread is the step's, in `SleptOrGone`.
- Scheduler.Kernel.Kill: a thread in use, as every caller but the one that passes thread number 0 looks it up.
- Scheduler.Kernel.ThreadFree: asks that the thread holds no futex slot (`RetiredIff`); freeing its process is not part of it, and its signal contexts are `Signals.Signals.ThreadFree`'s.
- Scheduler.Kernel.SetScheduler: asks for a priority from -40 to 99, those that have a queue; the code does not check it.
- Signals.Signals.Send: SIGKILL's effect on the run queue and the `killed` flag is not covered here but by `Scheduler.Kernel.Kill`.
- Signals.Signals.HandleSignal: default actions give the context back and do no more; those that end the thread are not covered.
- Signals.Signals.SigReturn: asks for a handling context; the code would follow a null pointer.
- NumberText.PrintInt: widths below 256, the size of the code's buffer.
- NumberText.Atoi: asks for a text whose accumulation does not overflow, which is undefined in C.
- WordStrings.Strlen: asks that memory ends on a word boundary, since the code reads whole words.

Not modelled:

- the contents of a page exist twice, as table words and as bytes; a table page's bytes are never looked at
- page permissions other than the eight bits of `Perm`, and the global bit
- either_copyin, either_copyout, either_memset and copyInStr beyond copyin and copyout
- mprotect and do_mmap, which rewrite entries outside the copy-on-write discipline
- exec's interpreter, argument stack and auxiliary vector; processSegmentMapFree, the pool of segment records and its exhaustion
- FAT entries as bytes of FAT sectors, the second copy of the table, and the boot sector
- metaResize, metaRemove, path lookup, links, mounts and the tree of DirMetas
- the interplay of several threads inside the file system and the block cache; pinned buffers
- pipeClose, user-page faults inside the pipe loops, and killed threads in a pipe
- virtio's registers, memory barriers and negotiation; the wake-up of threads that wait for descriptors
- switching stacks and contexts, trap frames in the scheduler, real-time clocks and several harts sharing the scheduler
- the older yield() with its own list, processes, wait and the process tree
- default signal actions that stop or end a process, signals outside 1 to 64, and rt_sigtimedwait
- drivers for SD card, UART and network, sockets, timers, and the system-call layer
- error codes, which appear as booleans or -1
