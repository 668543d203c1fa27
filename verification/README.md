# Three systems programs, modelled and proved in Dafny

This project models the three programs of the repository that do real algorithmic work, and
proves what they are for. `dafny verify dfyconfig.toml` checks all of it.

**The virtual memory system (`vms`).** Programs see memory through a three-level page table.
A fork copies the current address space, either at once or lazily: a lazy fork shares the
writable pages, marks their entries with a custom bit, and counts the extra mappings of each
page; the page fault handler splits a shared page when somebody writes to it. The main result
is that nobody can tell: for every program, whatever mixture of forks it makes, the machine
behaves like an ideal one in which each root owns a private memory and a fork duplicates it.

- `vms_pte.dfy`, `binaries.dfy`, `vms_address.dfy`, `vms_bytes.dfy`: page table entries as
  64-bit words and as records, with a bijection between the two; pointer arithmetic; the bytes
  of a page.
- `vms_machine.dfy`, `vms_steps.dfy`: the physical machine (256 frames of 512 entries, the
  allocator, the reference counters) and its invariant: tables form disjoint trees, free
  frames are blank, a page behind a writable entry has no other mapping, a page behind a custom
  entry has only custom mappings, each counter is the number of custom mappings beyond the
  first, `used` is the number of frames in use. The role of a frame (root, middle or lower
  table at a position, data) is bookkeeping of the model.
- `vms_fault.dfy`, `vms_fork.dfy`, `vms_forkframe.dfy`, `vms_mmu.dfy`: the handler, both forks as
  functions of their loop counters and what they leave alone, the walk with its fault-and-retry.
- `vms_space.dfy`, `vms_ideal.dfy`, `vms_run.dfy`: the private memories that a machine stands
  for, the ideal machine, and the refinement for single calls and for whole runs.
- `vms_count.dfy`, `vms_lockstep.dfy`: the exact cost of each fork, what a fault conserves, and
  the comparison of a copy-on-write system with an eager one on the same program.
- `vms_setup.dfy`, `vms_build.dfy`: the states that programs bring about, from the first page on,
  and what building tables does to the private memories.
- `vms_straddle.dfy`: accesses at the last three offsets of a page, which reach into the next one.
- `vms_system.dfy`, `vms_session.dfy`: the object whose methods update memory, allocator and
  counters in place, with the loops of the source, each method proved equal to the function
  above; and a whole session on it, from the first page to two diverging address spaces.

**The thread scheduler (`wut`).** Cooperative threads with a table of control blocks, a FIFO
ready queue, and create, yield, join, cancel and exit. A context switch is "the first thread
of the queue becomes current"; a thread suspended inside `wut_join` remembers the pointer it
holds, and finishes that call when it is switched to. The code is modelled as it is, with its
defects; the condition under which a cancellation keeps the scheduler consistent is proved to
be exact.

- `wut_threads.dfy`: control blocks, slots, queue, and one function per call.
- `wut_invariant.dfy`, `wut_calls.dfy`, `wut_cancel.dfy`: each live thread is exactly one of
  running, ready and blocked; which calls keep that.
- `wut_progress.dfy`, `wut_runs.dfy`: chains of joins, and the safety of whole runs.
- `wut_status.dfy`, `wut_queue.dfy`: what a join returns; bounded bypass.
- `wut_slots.dfy`: exactly when the slot of a thread is lost for ever.
- `wut_failures.dfy`: short programs, run from wut_init, on which the scheduler goes wrong.
- `wut_scheduler.dfy`: the object with its fields updated in place.

**The hash tables (`pht`).** Chained buckets: a sequential table, one with a global mutex
(version 1), one with a mutex for each bucket (version 2). `add_entry` of the locked versions
is split into its single reads and writes, interleaved over any number of threads.

- `pht_hash.dfy`, `pht_parse.dfy`: the string hash and the number parser.
- `pht_lists.dfy`, `pht_table.dfy`, `pht_base.dfy`: linked lists in a heap of nodes, the
  sequential table as lists and as a map, and the table object.
- `pht_concurrent.dfy`, `pht_progress.dfy`, `pht_tester.dfy`: the locked tables as a state
  machine with one step per thread and schedule entry, both versions in one proof; freedom from
  deadlock; the program of the tester.

`wrappers.dfy`, `sums.dfy` and `finite_sets.dfy` hold what the three share.

## Where the code differs from its comments or its intent

- The comment of the sequential table says that a new entry goes to the end of its list
  (pht/src/hash-table-base.c:95-101); the code inserts it at the head, and so does the model.
- `vms_page_to_ppn` asserts that a pointer lies below 2^60 (vms/src/page_table.c:31-36), but an
  entry holds only 44 bits of page number, so the limit is 2^56 (`VmsAddress.PageRoundTrip`,
  `VmsAddress.AssertsAreTooWeak`).
- `wut_exit` leaves `block_` and `join_to_` of the woken thread set; a later cancellation of that
  thread leaves it in the queue, dead (`WutFailures.CancelAfterJoinBreaks`).
- `wut_cancel` clears the `join_` flag of the waiter, although that flag says that somebody waits
  for the waiter; that somebody never runs again (`WutFailures.CancelInChainBreaks`).
- Cancelling a thread inside `wut_join`, blocked or already released, leaves `enable_` of its
  target at 0 with nobody there to set it again (`WutSlots.CancelOrphansIff`). Another thread may
  still join the target and so rescue its slot; if the target ends without that, the slot is lost.
  `WutSlots.SlotIsLostIff` gives the exact condition, `WutFailures.CancelOfBlockedLosesSlot` and
  `WutFailures.CancelOfReadyLosesSlot` two programs that lose a slot.
- `wut_cancel` reads one slot past the table for `id == THREAD_NUM == MAX_THREAD_NUM`; `wut_join`
  follows the null pointer of an empty slot below `THREAD_NUM`, and the empty queue when threads
  join each other (`WutRuns.StepKeepsInv`, `WutFailures.CancelPastTableCrashes`,
  `WutFailures.MutualJoinCrashes`, `WutFailures.JoinOfEmptySlotCrashes`).
- `vms_write` and `vms_read` move four bytes from any offset. At offsets 4093 to 4095 they reach
  into the next physical page, whatever it is used for, so a write is private to its address
  space exactly at the offsets up to 4092 (`VmsStraddle.WriteIsPrivateIff`,
  `VmsStraddle.SpillBreaksInv`).
- The tester computes the size of its string buffer in 32-bit arithmetic
  (pht/src/pht-tester.c:137). With 65536 threads of 65536 entries it asks for no string at all;
  the accesses stay inside the buffer exactly when there are fewer than 2^32 entries
  (`PhtTester.BufferSufficesIff`, `PhtTester.EmptyBuffer`).

## Model

| member | source | states |
|---|---|---|
| `VmsPte.EncodeDecode` | vms/src/pte.c:3-7 | a 64-bit entry is determined by its page number, its four flags and its 16 other bits |
| `VmsPte.DecodeEncode` | vms/src/pte.c:57-60 | every record with a 44-bit page number is the content of some entry, so words and records correspond one to one |
| `VmsPte.BitsOfEntry` | vms/src/pte.c:3-7 | V is bit 0, R bit 1, W bit 2, the custom bit is bit 8, and the page number takes bits 10 to 53 |
| `VmsPte.Entry.ValidClear` | vms/src/pte.c:9-11 | clears V in place and changes nothing else of the entry |
| `VmsPte.Entry.ValidSet` | vms/src/pte.c:13-15 | sets V in place and changes nothing else |
| `VmsPte.Entry.ReadClear` | vms/src/pte.c:21-23 | clears R in place and changes nothing else |
| `VmsPte.Entry.ReadSet` | vms/src/pte.c:25-27 | sets R in place and changes nothing else |
| `VmsPte.Entry.WriteClear` | vms/src/pte.c:33-35 | clears W in place and changes nothing else |
| `VmsPte.Entry.WriteSet` | vms/src/pte.c:37-39 | sets W in place and changes nothing else |
| `VmsPte.Entry.CustomClear` | vms/src/pte.c:45-47 | clears the custom bit in place and changes nothing else |
| `VmsPte.Entry.CustomSet` | vms/src/pte.c:49-51 | sets the custom bit in place and changes nothing else |
| `VmsPte.Entry.SetPpn` | vms/src/pte.c:62-67 | stores the low 44 bits of the page number and keeps the 20 other bits |
| `VmsPte.FlagEdits` | vms/src/pte.c:9-55 | the eight flag operations are independent edits of the record behind the word |
| `VmsPte.PpnEdit` | vms/src/pte.c:57-67 | after setting a page number, reading it gives its low 44 bits, and every flag and other bit is as before |
| `VmsAddress.IndicesDetermineAddress` | vms/src/page_table.c:10-14 | the three indices and the offset determine the low 39 bits of an address |
| `VmsAddress.AddressDeterminesIndices` | vms/src/page_table.c:10-14 | every choice of indices and offset is that of some address, whatever its upper bits |
| `VmsAddress.SplitSeparates` | vms/src/page_table.c:10-25 | two addresses look the same to the walk exactly when their low 39 bits agree |
| `VmsAddress.SplitOfParts` | vms/src/page_table.c:10-25 | bits 30 to 38 select the entry of the root table, 21 to 29 that of the middle table, 12 to 20 that of the leaf table, and 0 to 11 the byte |
| `VmsAddress.BasePageOfEntry` | vms/src/mmu.c:113-115 | from a pointer to an entry, the table and the index can be recovered |
| `VmsAddress.PageRoundTrip` | vms/src/page_table.c:27-36 | page to page number to entry to page is the identity exactly for aligned pages below 2^56 |
| `VmsAddress.AssertsAreTooWeak` | vms/src/page_table.c:31-36 | the assertions let a page through that an entry cannot hold |
| `VmsAddress.PageIndexOfPointer` | vms/src/pages.c:18-24 | the index of the i-th page pointer is i |
| `VmsAddress.PagePointerOfIndex` | vms/src/pages.c:18-24 | the pointer of the index of a page of the area is the page |
| `VmsAddress.PageNumberOfFrame` | vms/src/page_table.c:27-36 | the page number of the p-th page of the area is that of the first page plus p, which is how the model numbers frames |
| `VmsAddress.TranslationParts` | vms/src/mmu.c:106-111 | a translated address has the page of the entry and the offset of the virtual address |
| `VmsAddress.TranslationLandsInFrame` | vms/src/mmu.c:106-111 | an entry that holds the page number of the area plus q leads to page q of the area, at the offset of the virtual address, which is how the model places accesses |
| `VmsBytes.PackUnpack` | vms/src/mmu.c:127-128 | a 64-bit word is determined by its eight bytes, so a page can be read by entries or by bytes |
| `VmsBytes.WriteIntBytes` | vms/src/mmu.c:127-128 | inside a page, writing an int at any offset with room for it changes exactly its four bytes |
| `VmsBytes.ReadWritten` | vms/src/mmu.c:141-142 | the int that was written is read back, aligned or not |
| `VmsBytes.IntInWord` | vms/src/mmu.c:127-128 | ints are stored low byte first: an int at the start of an entry is its low half |
| `VmsMachine.FirstFree` | vms/src/pages.c:49-58 | the scan gives the least free page, and none only when all are in use |
| `VmsSteps.AllocSucceeds` | vms/src/pages.c:49-58 | an allocation succeeds exactly while fewer than 256 pages are in use |
| `VmsFault.FaultKeepsInv` | vms/src/vms.c:13-26 | the handler keeps the whole invariant: trees, sharing, counters, number of used pages |
| `VmsMmu.FaultEntry` | vms/src/vms.c:15-23 | the handler gives a custom entry its write bit back, clears its custom bit, and changes at most its page number beside; other entries it leaves alone |
| `VmsIdeal.FaultIsInvisible` | vms/src/vms.c:13-26 | the handler changes one entry and no mapping that any root shows |
| `VmsCount.FaultConserves` | vms/src/vms.c:15-24 | used pages plus the sum of all counters is the same before and after; the handler fails exactly for a shared page when no page is free |
| `VmsFork.CopyLowWorks` | vms/src/vms.c:48-74 | after k iterations of the inner loop, the first k entries of the new table map the data of the old ones, in either mode, and everything else is as before |
| `VmsFork.CopyMidWorks` | vms/src/vms.c:40-77 | the same for the middle loop: trees behind the first j entries |
| `VmsFork.CopyRootWorks` | vms/src/vms.c:32-80 | the same for the outer loop |
| `VmsFork.ForkWorks` | vms/src/vms.c:28-90 | both forks keep the invariant, leave every existing address space as it is, and add one that equals the current one at every index |
| `VmsForkFrame.EagerForkWritesNewPages` | vms/src/vms.c:54-59 | an eager fork leaves every page that was in use exactly as it was |
| `VmsForkFrame.LeafEntryCopied` | vms/src/vms.c:54-59 | an eagerly forked leaf entry is the original but for its page, which is new and holds the same |
| `VmsForkFrame.LeafEntryShared` | vms/src/vms.c:60-73 | a lazily forked leaf entry equals the original, and both trade W for the custom bit |
| `VmsForkFrame.MidEntryCopied` | vms/src/vms.c:75-76 | a forked entry of a middle table is the original but for the table it leads to |
| `VmsForkFrame.RootEntryCopied` | vms/src/vms.c:78-79 | the same for the root table |
| `VmsForkFrame.ForkEditsWritableLeaves` | vms/src/vms.c:60-73 | a fork of either kind changes the pages in use at most in writable leaf entries, where W is traded for the custom bit |
| `VmsForkFrame.LazyForkEdits` | vms/src/vms.c:60-73 | a lazy fork, exactly: in the leaf tables of the current tree every writable or custom entry becomes a custom one; every other page in use, in this tree or another, is as it was |
| `VmsForkFrame.NewTreeIsFresh` | vms/src/vms.c:30-46 | the tables of the new tree are pages that were free, so the new tree is disjoint from all others |
| `VmsCount.ForkCounts` | vms/src/vms.c:28-82 | a fork takes one page for the root and each valid upper entry, and one per valid leaf when eager; it adds one reference per writable or custom leaf when lazy; it fails exactly when that many pages are not free |
| `VmsMmu.MmuIsDescent` | vms/src/mmu.c:74-104 | the walk with its retries reaches the table that a plain descent reaches, fails where that fails, and lets the handler act at a leaf only |
| `VmsMmu.WalkStep` | vms/src/mmu.c:15-26 | in any state: an entry that is not valid, that has R or W above the lowest level, or neither at the lowest, ends the walk unless the handler repairs it; any other entry is followed |
| `VmsIdeal.WalkWorks` | vms/src/mmu.c:74-104 | the walk shows the same memory afterwards, keeps the invariant, ends at the entry of the address, and fails fatally only where no accessible page is mapped |
| `VmsIdeal.ReadRefines` | vms/src/mmu.c:131-143 | a read returns what the private memory of the current root holds, or fails fatally exactly when that has no readable page there, unless memory runs out |
| `VmsIdeal.WriteRefines` | vms/src/mmu.c:117-129 | a write does to the private memory of the current root what the ideal write does, or fails fatally exactly when that does, unless memory runs out |
| `VmsRun.StepRefines` | vms/src/vms.c:84-90 | every call keeps the invariant and does what the ideal machine does |
| `VmsRun.RunRefines` | vms/src/vms.c:13-90 | for every program of reads, writes, root changes and forks of both kinds, the events are those of the machine with private memories, up to the point where memory runs out |
| `VmsRun.WriteChangesFourBytes` | vms/src/mmu.c:117-129 | a write that returns changes the four bytes at its address as seen through the current root, and no byte seen at another page or through another root, even if it faults on the way |
| `VmsRun.ReadAfterWrite` | vms/src/mmu.c:117-143 | the next read of the address gives the value written, if it returns |
| `VmsRun.WrittenIsSeen` | vms/src/mmu.c:117-143 | as a program: the event of the read carries the int written |
| `VmsRun.ForkedHandle` | vms/src/vms.c:84-90 | a fork reports a new root, which shows a copy of the current space and can be made current |
| `VmsLockstep.ForkCosts` | vms/src/vms.c:54-73 | a lazy fork claims as much as an eager one, less one page for each read-only page it shares |
| `VmsLockstep.StepAbreast` | vms/src/vms.c:28-82 | one call on a lazy and an eager system side by side |
| `VmsLockstep.LazyNeverWorse` | vms/src/vms.c:28-90 | on the same program the lazy system shows the same events, never runs out first, and its used pages plus references stay behind the eager used pages by exactly the read-only pages shared |
| `VmsLockstep.CopyOnWriteNeverCostsMore` | vms/src/vms.c:84-90 | what an eager system runs to its end, a copy-on-write system runs to the same end with no more pages |
| `VmsSetup.BootInv` | vms/src/pages.c:30-58 | a new system whose first page is its root satisfies the invariant and has one empty address space |
| `VmsSetup.DeclareRootKeeps` | vms/src/mmu.c:31-34 | a blank page can become the root of a new, empty address space and be made the current root; the other address spaces stay |
| `VmsSetup.LinkTableKeeps` | vms/src/main.c:15-21 | hanging a blank page below a table keeps the invariant; the entry holds the page number and V |
| `VmsSetup.ReleaseKeeps` | vms/src/pages.c:60-68 | freeing a page that no entry maps keeps the invariant |
| `VmsSetup.ReleaseUndoesTake` | vms/src/pages.c:49-68 | allocating, filling and freeing a page leaves no trace |
| `VmsSetup.EveryReachableStateIsWellFormed` | vms/src/vms.c:13-90 | any mixture of table building, page allocation, reads, writes and forks keeps the invariant |
| `VmsSetup.ReachableFromBoot` | vms/src/vms.c:11-24 | in every state reachable from the start, the counter of a page is max(0, custom mappings - 1), and used pages are counted right |
| `VmsSetup.MapPageShows` | vms/src/main.c:23-27 | filling a leaf entry changes one page of one address space, which then shows the contents of the page; the entry holds the page number, V, and R and W as asked |
| `VmsBuild.NewPageShows` | vms/src/pages.c:49-58 | a new page is blank and shown by no address space |
| `VmsBuild.LinkMidShows` | vms/src/main.c:15-17 | hanging a table below a root gives one region of one address space an empty table |
| `VmsBuild.LinkLowShows` | vms/src/main.c:19-21 | the same below a middle table |
| `VmsBuild.SinglePageCost` | vms/src/vms.c:28-82 | forking an address space of one page takes three tables and, when eager, the page |
| `VmsSetup.MappedPageIsUsable` | vms/src/main.c:31-38 | a page mapped readable and writable under the current root can be written and read back at every offset, whatever else the system holds |
| `VmsStraddle.StoreAtBytes` | vms/src/mmu.c:127-128 | a store at any byte of the area changes exactly four bytes of the area |
| `VmsStraddle.LoadStored` | vms/src/mmu.c:141-142 | what was stored is loaded again, at every offset |
| `VmsStraddle.StoreInsidePage` | vms/src/mmu.c:127-128 | at offsets up to 4092 this is the store of the model |
| `VmsStraddle.StoreSpills` | vms/src/mmu.c:127-128 | at the last three offsets it changes the end of its page and the first bytes of the next page, and no other byte |
| `VmsStraddle.StoreKeepsToPageIff` | vms/src/mmu.c:106-128 | stores leave every other page alone exactly at the offsets up to 4092 |
| `VmsStraddle.SpillBreaksInv` | vms/src/mmu.c:106-128 | if the next page is free, some store leaves it dirty |
| `VmsStraddle.WriteAtInside` | vms/src/mmu.c:117-129 | where an int fits into its page, a call of vms_write at any address is the write of the refinement |
| `VmsStraddle.ReadAtInside` | vms/src/mmu.c:131-143 | the same for vms_read |
| `VmsStraddle.WriteAtBytes` | vms/src/mmu.c:117-129 | at every offset, vms_write changes exactly four bytes of the area after a walk that nobody can see |
| `VmsStraddle.ReadAtBytes` | vms/src/mmu.c:131-143 | at every offset, vms_read returns the four bytes of the area at the translated address, after a walk that nobody can see |
| `VmsStraddle.OffsetPlaysNoPart` | vms/src/mmu.c:74-104 | the entry that an access finds does not depend on the byte offset |
| `VmsStraddle.EndsAlike` | vms/src/mmu.c:117-143 | at every offset, an access faults fatally or runs out of memory exactly where one at the start of the page does |
| `VmsStraddle.PastAreaIff` | vms/src/mmu.c:127-128 | vms_write leaves the area exactly at the last three offsets of the last page |
| `VmsStraddle.ReadPastAreaIff` | vms/src/mmu.c:141-142 | the same for vms_read |
| `VmsStraddle.WriteIsPrivateIff` | vms/src/mmu.c:117-129 | whatever is written, vms_write keeps to the page behind its entry exactly at the offsets up to 4092 |
| `VmsSystem.System.constructor` | vms/src/pages.c:14-47 | the blank machine with the given first page number |
| `VmsSystem.System.BootRoot` | vms/src/main.c:6-29 | the first page becomes the current root |
| `VmsSystem.System.UseRoot` | vms/src/mmu.c:31-34 | a page becomes the root of a new address space and the current root |
| `VmsSystem.System.LinkTable` | vms/src/main.c:15-17 | page number and valid bit, set in place, give the state of the link function |
| `VmsSystem.System.MapPage` | vms/src/main.c:23-27 | the same for a leaf entry with its read and write bits |
| `VmsSystem.System.NewPage` | vms/src/pages.c:49-58 | the loop takes the first free page |
| `VmsSystem.System.FreePage` | vms/src/pages.c:60-68 | the page is free again and blank |
| `VmsSystem.System.SetRoot` | vms/src/mmu.c:31-34 | only the current root changes |
| `VmsSystem.System.PageFaultHandler` | vms/src/vms.c:13-26 | the writes in place, in the order of the code, give the state of the handler function |
| `VmsSystem.System.SplitPage` | vms/src/vms.c:21-24 | the private copy of a shared page |
| `VmsSystem.System.Copy` | vms/src/vms.c:28-82 | the triple loop gives the state of the fork function |
| `VmsSystem.System.CopyL2Entry` | vms/src/vms.c:33-79 | one iteration of the outer loop |
| `VmsSystem.System.FillL1` | vms/src/vms.c:40-77 | the middle loop |
| `VmsSystem.System.CopyL1Entry` | vms/src/vms.c:41-76 | one iteration of the middle loop |
| `VmsSystem.System.FillL0` | vms/src/vms.c:48-74 | the inner loop |
| `VmsSystem.System.CopyL0Entry` | vms/src/vms.c:49-73 | one iteration of the inner loop, in both modes |
| `VmsSystem.System.CopyPrivately` | vms/src/vms.c:55-59 | the eager case |
| `VmsSystem.System.ShareLazily` | vms/src/vms.c:65-72 | the copy-on-write case |
| `VmsSystem.System.Walk` | vms/src/mmu.c:74-104 | the loop with its retry flag ends, and gives the result and the state of the walk function |
| `VmsSystem.System.Write` | vms/src/mmu.c:117-129 | the whole write, with its second chance, at every offset, gives the result and the state of the write function |
| `VmsSystem.System.Read` | vms/src/mmu.c:131-143 | the whole read, at every offset, gives the result and the state of the read function |
| `VmsSession.Build` | vms/src/main.c:6-29 | a new object with tables for one address shows one blank page there and nothing else |
| `VmsSession.ForkThenWrite` | vms/src/vms.c:84-90 | on the object, for every address and both kinds of fork: after the fork the parent reads what it wrote before, the child what it wrote after, and memory suffices |
| `VmsSession.SampleProgram` | vms/src/main.c:6-35 | the sample program: with tables at entries 0, 5 and 188, the reads of address 0xABC123 give 1 and then 2 |
| `WutInvariant.ExactlyOne` | wut/src/wut.c:36-49 | a live thread is exactly one of current, in the ready queue once, and blocked by one join edge whose two ends agree |
| `WutInvariant.InitInv` | wut/src/wut.c:124-158 | the start: one live thread, which runs, 256 slots and an empty queue |
| `WutInvariant.SwitchKeeps` | wut/src/wut.c:297-304 | a switch to the first ready thread leads from a state with nobody running to one that satisfies the invariant |
| `WutThreads.FindSlot` | wut/src/wut.c:205-212 | the scan gives the least slot that may be used |
| `WutThreads.LowByte` | wut/src/wut.c:348-351 | a masked status is between 0 and 255, so it is never -1 |
| `WutCalls.CreateWorks` | wut/src/wut.c:179-222 | wut_create always finds a slot: the least one that is empty or holds an ended, collectable thread, never that of a live thread; other slots keep their threads |
| `WutCalls.ResizeKeeps` | wut/src/wut.c:167-174 | doubling the table keeps every slot, its pointer and its control block |
| `WutCalls.YieldSuspends` | wut/src/wut.c:316-328 | before the switch of a yield, every live thread is ready or blocked |
| `WutCalls.TerminateSuspends` | wut/src/wut.c:346-368 | the same for an exit: its joiner, if any, is ready |
| `WutCalls.BlockSuspends` | wut/src/wut.c:286-294 | the same for a blocking join: the caller is blocked on its target |
| `WutCancel.CancelKeepsInvIff` | wut/src/wut.c:227-272 | an accepted cancellation keeps the invariant exactly when the block flag of the thread is not stale and nobody else waits for its waiter |
| `WutCancel.StaleFlagBreaks` | wut/src/wut.c:257-261 | otherwise, with a stale flag, a dead thread stays in the queue |
| `WutCancel.LostWaiterBreaks` | wut/src/wut.c:245-246 | otherwise, with a waiter that is waited on, a live thread is neither running nor ready nor blocked |
| `WutCancel.RemoveElements` | wut/src/wut.c:266-266 | removing a thread from the queue keeps all others, once each |
| `WutProgress.AcyclicHasNoCycle` | wut/src/wut.c:286-294 | ranked joins have no cycle of any length |
| `WutProgress.AcyclicIff` | wut/src/wut.c:286-294 | ranks exist exactly when no thread waits, through others, for itself |
| `WutProgress.ChainEnds` | wut/src/wut.c:286-294 | every chain of joins ends at a thread that is running or ready |
| `WutProgress.JoinFindsReadyThread` | wut/src/wut.c:297-299 | a join whose target does not wait for the caller finds a ready thread to switch to |
| `WutProgress.BlockAcyclicIff` | wut/src/wut.c:286-294 | blocking keeps the joins acyclic exactly when the chain from the target does not lead back to the caller |
| `WutProgress.ExitFinishesIff` | wut/src/wut.c:346-380 | with acyclic joins, wut_exit ends the process exactly when no other thread is live |
| `WutRuns.StepKeepsInv` | wut/src/wut.c:179-380 | every call keeps the invariant if a cancellation is sound; the calls that follow a bad pointer are exactly the listed ones |
| `WutRuns.CancelCode` | wut/src/wut.c:227-235 | wut_cancel returns 0 exactly for a live thread other than the caller; otherwise -1, and nothing changes |
| `WutRuns.JoinCode` | wut/src/wut.c:278-284 | a wut_join that does not block returns -1 exactly for a bad identifier, the caller itself or a live thread that is joined already, and else the status of the ended thread |
| `WutRuns.JoinCases` | wut/src/wut.c:278-301 | case by case: wut_join refuses a negative identifier, the caller and any identifier from THREAD_NUM on; follows a null pointer for an empty slot below; returns the status of an ended or already joined thread; and else leaves the processor to the head of the queue, if there is one |
| `WutRuns.YieldCode` | wut/src/wut.c:311-314 | wut_yield fails exactly when every other live thread is blocked |
| `WutRuns.StepKeepsAcyclic` | wut/src/wut.c:179-380 | a disciplined call never crashes and keeps the joins acyclic |
| `WutRuns.JoinAcyclicIff` | wut/src/wut.c:278-305 | the whole wut_join keeps the joins acyclic exactly under that condition |
| `WutRuns.RunsAreSafe` | wut/src/wut.c:179-380 | a disciplined run never crashes, keeps the invariant, and ends only when its last live thread exits |
| `WutRuns.RunsFromInit` | wut/src/wut.c:124-158 | the same for every disciplined run from wut_init |
| `WutStatus.StatusIsFinal` | wut/src/wut.c:348-351 | a status is written once, by the exit or the cancellation of its thread |
| `WutStatus.StatusAfterRun` | wut/src/wut.c:237-237 | after any run, a control block that was live or new holds the status its thread ended with in that run, or -1 |
| `WutStatus.SlotIsKept` | wut/src/wut.c:205-212 | while a joiner has not resumed, the slot of its target holds that target, and wut_create does not take it |
| `WutStatus.InsideStep` | wut/src/wut.c:297-304 | a thread inside wut_join stays there until it is switched to, and then its target has ended |
| `WutStatus.ReplyIsVerdict` | wut/src/wut.c:303-304 | the value a suspended join returns is the status of its target, whatever ran meanwhile |
| `WutStatus.JoinReturnsEndStatus` | wut/src/wut.c:291-304 | a blocking join returns the status with which its target ended since |
| `WutStatus.JoinReportsCause` | wut/src/wut.c:291-304 | and that is the low byte of the argument of the wut_exit that its target called, or 128 if another thread cancelled it |
| `WutStatus.EndStatusCause` | wut/src/wut.c:227-237 | whenever a thread ends in a run, its status is the low byte of its wut_exit argument, or 128 after a cancellation |
| `WutStatus.CancelledStatus` | wut/src/wut.c:237-237 | a cancelled thread has the status 128, and a wut_join on it returns 128 |
| `WutStatus.ExitedStatus` | wut/src/wut.c:348-351 | wut_exit leaves the low byte of its argument |
| `WutStatus.EndedStatusIsReported` | wut/src/wut.c:282-283 | as long as the slot of an ended thread is not reused, every wut_join on it returns its status, whatever ran meanwhile |
| `WutQueue.RemoveMovesUp` | wut/src/wut.c:266-266 | removing one thread moves no other back |
| `WutQueue.RemoveKeepsOrder` | wut/src/wut.c:266-266 | the queue without the thread, all others in their order |
| `WutQueue.ReadyMovesForward` | wut/src/wut.c:218-218 | no call moves a ready thread back, and every switch moves it one place forward or runs it |
| `WutQueue.BoundedBypass` | wut/src/wut.c:311-341 | the thread at position k of the queue runs within k + 1 switches, whatever the others call, unless it is cancelled |
| `WutSlots.CancelOrphansIff` | wut/src/wut.c:257-271 | a sound cancellation orphans exactly the control block that its thread was joining, whether that thread was blocked or already released |
| `WutSlots.CancelOfBlockedThreadLeaks` | wut/src/wut.c:257-261 | after a blocked thread is cancelled, its target lives on as an orphan |
| `WutSlots.OrphanStepIff` | wut/src/wut.c:179-380 | over all calls: a block becomes an orphan exactly when its joiner is cancelled, and stops being one exactly when it is joined again |
| `WutSlots.OrphanHistory` | wut/src/wut.c:179-380 | the same over whole runs |
| `WutSlots.SlotIsLostIff` | wut/src/wut.c:205-212 | in a run from wut_init a slot is lost exactly when its thread has ended, its last joiner was cancelled inside wut_join, and nobody has joined it since |
| `WutSlots.EndedSlot` | wut/src/wut.c:205-212 | the slot of an ended thread is free, or lost, or about to be released by a ready thread |
| `WutSlots.LostForever` | wut/src/wut.c:205-212 | a lost slot is never used again |
| `WutFailures.StartedIsReached` | wut/src/wut.c:179-222 | from wut_init, the first 255 creations fill the slots in order |
| `WutFailures.CancelPastTableCrashes` | wut/src/wut.c:228-232 | after 255 creations, cancelling thread 256 reads past the table |
| `WutFailures.MutualJoinCrashes` | wut/src/wut.c:297-299 | from wut_init, two threads that join each other: the second join finds an empty queue |
| `WutFailures.JoinOfEmptySlotCrashes` | wut/src/wut.c:282-283 | from wut_init, joining a slot that was never filled, below the number of creations |
| `WutFailures.CancelAfterJoinBreaks` | wut/src/wut.c:353-367 | from wut_init, a thread woken by an exit and then cancelled: the invariant is lost |
| `WutFailures.CancelInChainBreaks` | wut/src/wut.c:245-246 | from wut_init, a cancellation in the middle of a chain: the invariant is lost |
| `WutFailures.CancelOfBlockedLosesSlot` | wut/src/wut.c:257-261 | from wut_init, a blocked joiner is cancelled and its target ends: slot 1 is lost |
| `WutFailures.CancelOfReadyLosesSlot` | wut/src/wut.c:262-270 | from wut_init, a released joiner is cancelled before it runs again: slot 1 is lost at once |
| `WutScheduler.Scheduler.constructor` | wut/src/wut.c:124-158 | the state of wut_init |
| `WutScheduler.Scheduler.Resize` | wut/src/wut.c:167-174 | a table of twice the size, its upper half empty |
| `WutScheduler.Scheduler.Create` | wut/src/wut.c:179-222 | the effect and state of the create function, through the scanning loop |
| `WutScheduler.Scheduler.Cancel` | wut/src/wut.c:227-272 | the effect and state of the cancel function |
| `WutScheduler.Scheduler.Join` | wut/src/wut.c:278-305 | the effect and state of the join function |
| `WutScheduler.Scheduler.Yield` | wut/src/wut.c:311-341 | the effect and state of the yield function |
| `WutScheduler.Scheduler.Exit` | wut/src/wut.c:346-380 | the effect and state of the exit function |
| `PhtHash.BernsteinHash` | pht/src/hash-table-common.c:6-19 | the loop computes the base-33 polynomial of the string modulo 2^32 |
| `PhtHash.PolynomialOfConcat` | pht/src/hash-table-common.c:15-15 | the polynomial of two strings put together |
| `PhtHash.HashRecursion` | pht/src/hash-table-common.c:6-19 | the empty string hashes to 0, a further signed character c turns h into 33 h + c modulo 2^32, and the bucket is the hash modulo 4096 |
| `PhtParse.ParseUint32` | pht/src/pht-tester.c:29-65 | accepts exactly the strings of at most ten digits with a value below 2^32, and returns that value, without wrapping around |
| `PhtParse.ValueRecursion` | pht/src/pht-tester.c:41-60 | digits are the characters 48 to 57, and a further digit multiplies by ten and adds its value |
| `PhtParse.DecimalIsAccepted` | pht/src/pht-tester.c:29-65 | parsing inverts decimal printing for every 32-bit number |
| `PhtTable.AddIsUpdate` | pht/src/hash-table-base.c:102-119 | an add changes what is found for its key and nothing else |
| `PhtTable.TableIsMap` | pht/src/hash-table-base.c:87-132 | after any adds, the table answers like a map with the same updates |
| `PhtTable.AddAllKeepsKeys` | pht/src/hash-table-base.c:55-63 | each key is in the bucket its hash selects, once |
| `PhtTable.KeySitsOnce` | pht/src/hash-table-base.c:65-69 | no two places of the table hold the same key |
| `PhtLists.AddedPlaces` | pht/src/hash-table-base.c:105-118 | a known key keeps its place in its list and a new key comes first; all other entries keep their order |
| `PhtBase.HashTable.constructor` | pht/src/hash-table-base.c:41-50 | an empty table |
| `PhtBase.HashTable.GetListEntry` | pht/src/hash-table-base.c:70-82 | the walk stops at the entry of the key, or at the end if there is none |
| `PhtBase.HashTable.Contains` | pht/src/hash-table-base.c:87-93 | true exactly when the key is in the table |
| `PhtBase.HashTable.GetValue` | pht/src/hash-table-base.c:125-132 | the value of the key, or a failed assertion if it is not in the table |
| `PhtBase.HashTable.AddEntry` | pht/src/hash-table-base.c:102-119 | the table in memory becomes the one with the entry added |
| `PhtBase.HashTable.InsertHead` | pht/src/hash-table-base.c:115-118 | the new entry, linked in two writes, is at the front of its list |
| `PhtBase.AddThenAsk` | pht/src/pht-tester.c:162-183 | any sequence of adds and a question, end to end on the table object, agree with a map |
| `PhtConcurrent.MutualExclusion` | pht/src/hash-table-v2.c:85-88 | two threads inside add_entry are on different buckets, and with one lock there is at most one |
| `PhtConcurrent.EntersIff` | pht/src/hash-table-v2.c:83-88 | a thread that calls add_entry gets in exactly when nobody is inside, with one lock, or nobody works on the same bucket, with a lock for each bucket |
| `PhtConcurrent.StepKeeps` | pht/src/hash-table-v2.c:79-112 | every single step of every thread keeps what all threads know about their lists |
| `PhtConcurrent.AddsAtOnce` | pht/src/hash-table-v2.c:93-106 | the value write or the head write of an add is the whole add on the lists; no other step of any thread changes a list |
| `PhtConcurrent.RunKeeps` | pht/src/pht-tester.c:222-236 | every schedule of every number of threads keeps the invariant |
| `PhtConcurrent.RunsAreSequential` | pht/src/hash-table-v1.c:79-111 | in any interleaving, with one lock or one for each bucket, the lists are those of the sequential table after the same adds, in an order that respects each program; at quiescence, all of each program |
| `PhtConcurrent.NothingLost` | pht/src/hash-table-v2.c:70-77 | at quiescence a key is found exactly if some thread added it, with a value that some thread added for it |
| `PhtConcurrent.LastAddWins` | pht/src/hash-table-v2.c:93-98 | at quiescence the value of a key is that of the last add of the key in the program of some thread |
| `PhtProgress.NoDeadlock` | pht/src/hash-table-v2.c:85-111 | until all threads are done, one of them can make a step |
| `PhtProgress.StepMakesProgress` | pht/src/hash-table-v2.c:79-112 | every step of a thread that can make one leaves less work |
| `PhtProgress.MovesAreBounded` | pht/src/hash-table-v2.c:62-66 | no schedule lets threads move for ever: searches and adds are finite under interference |
| `PhtProgress.CanFinish` | pht/src/pht-tester.c:230-236 | from every state there is a schedule after which all threads are done |
| `PhtProgress.EveryProgramCanFinish` | pht/src/pht-tester.c:189-204 | every set of programs has a run to the end, with either kind of locks |
| `PhtTester.IndicesDistinctIff` | pht/src/pht-tester.c:83-86 | the global indices are distinct exactly when there are at most 2^32 entries in all |
| `PhtTester.BufferSufficesIff` | pht/src/pht-tester.c:137-137 | every access to the strings stays inside the allocated buffer exactly when there are fewer than 2^32 entries in all |
| `PhtTester.EmptyBuffer` | pht/src/pht-tester.c:137-157 | with 65536 threads of 65536 entries the buffer is empty and the first access is outside it |
| `PhtTester.NothingMissing` | pht/src/pht-tester.c:115-123 | whenever the buffer suffices: after the threads of the tester have been joined, no string is missing; its value is the index of its last occurrence in the share of some thread, so distinct strings have their own index |

## Left out

- `VmsIdeal.WriteRefines`: reads and writes of runs are at offsets up to 4092, because exactly there they keep to their page (`VmsStraddle.WriteIsPrivateIff`). What a call does at the last three offsets is stated in `vms_straddle.dfy`; an access beyond the end of the area is an outcome of its own and is not described further.
- `VmsIdeal.ReadRefines`: the same offsets, for the same reason.
- Pointers into the mapped area are frame numbers. A page number outside the area reads as a blank page in the functions; the invariant and the preconditions of the methods exclude it.
- `VmsRun.RunRefines`: root changes name a root by the order of its creation, because a program that installs an arbitrary pointer as root leaves the model.
- `VmsSetup.EveryReachableStateIsWellFormed`: a caller that maps a page writable twice, reuses a page for two purposes, or frees a mapped page is excluded; the fault and fork code does none of this.
- `VmsSystem.System.LinkTable`: the entry to be filled is blank; in every state that programs bring about, an entry of a table is blank until it is filled.
- `VmsSetup.BootInv`: the first page is declared the current root before the tables below it are built; the programs of the repository install their root last, which no access can tell.
- `VmsSystem.System.Copy`: when memory runs out in the middle of a fork, the process exits; the state it leaves behind is not described.
- mmap, sysconf, exit codes, perror and the text of a fatal fault: a fault is an outcome, and so is exhausted memory.
- Stacks, machine contexts and their linking, valgrind registration, and the memory of queue nodes in the scheduler: only identifiers, flags, the place of a suspended thread and the order of the queue are kept. The queue node of a thread is found by its identifier; with the invariant there is exactly one.
- wut_init is called once, before any other call of the scheduler.
- `clear_global` and the destroy functions of the hash tables: cleanup only.
- `contains` and `get_value` of the locked tables take no lock; the tester calls them after all threads have been joined, and the model asks the table only then.
- `PhtConcurrent.StepKeeps`: allocating an entry and filling in its key and value is one step, because the entry is not visible to any other thread until the head of the list is written.
- Failures of calloc and of the mutex functions end the process and are not modelled. The value of an entry is a natural number; nothing computes with it.
- `PhtHash.BernsteinHash`: characters are signed, as on the platforms the program is built for; with unsigned characters, strings with bytes above 127 would have other hashes.
- Keys are immutable strings; the tester never changes them after it starts adding.
- Random key generation, timing and the handling of options other than the parser of numbers.
- `hello-ext2`, `hello-kernel`, `debugging-practice`, `ssp`, `tps` and the scripts around the programs: fixed images, process control and printing, with little to prove beyond single cases.
