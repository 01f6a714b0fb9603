# A verified model of the kernel's core

This project models the hard core of a small AArch64 kernel and of the programs that go with it, and
proves what they promise: the crash-safe log over the buffer cache, the multi-processor scheduler with
sleep and wakeup, the four-level page tables over the frame allocator, the file system from bitmap bits
up to directories, the image writer mkfs, the parser of the shell, and the console's line discipline.

Code that updates memory in place is modelled by classes and methods with loops, each proved against
functions on values; code that many processors run at once is modelled by a state machine whose steps
are single memory accesses or single sector writes, and its results hold in every state that any run
reaches.

| part | modules |
|---|---|
| bytes, bits, sets, limits, device | Bytes, Bits, Sets, Limits, Device |
| buffer cache (kern/bio.c) | Cache |
| log (kern/log.c), one process | Redo, LogRun, Log |
| log, many processes and crashes | Journal, JournalBooks, JournalInv, JournalRun, JournalLba, JournalPanic, JournalBuffers, JournalFiles, LogShare |
| spinlocks, sleep, scheduler (kern/spinlock.c, kern/sleeplock.c, kern/proc.c) | Sched, SchedInv, SchedRun, SchedHistory, SchedTurn |
| frames and page tables (kern/kalloc.c, kern/vm.c) | Frames, PageTable, Vm, Space, Copy, Guard, Reap |
| file system (kern/fs.c, kern/file.c) | Layout, Format, Volume, Fs, FsFile, FsTrunc, FileWrite, Directory, DirOps |
| image writer (user/src/mkfs/main.c) | Mkfs, MkfsMain, MkfsRead |
| shell parser (user/src/sh/main.c) | Grammar, Lexer, Shell |
| console (kern/console.c) | Console |

`dafny verify dfyconfig.toml` checks everything.

## Findings

Where the code does not do what its comments or callers expect, the model follows the code, and the
exact condition under which it does is proved.

- **LBA is added twice.** `bread` adds LBA to the block number it is given (kern/bio.c:107), and
  `log_write` records the sum (kern/log.c:230), which `write_log` and `install_trans` give to `bread`
  again (kern/log.c:80, 186). So a commit copies other sectors than the ones recorded. It makes the
  recorded buffers durable if and only if LBA is 0 (`Redo.DurableExactlyAtZeroLba`,
  `Journal.RecordReachesIff`), and over all runs recovery leaves what was saved if and only if it is
  (`JournalLba.ReplayExactlyAtZeroLba`); in the kernel it is 0x20800.
- **begin_op reserves against LOGSIZE, log_write refuses at log.size - 1 as well** (kern/log.c:136,
  220). If an operation adds at most `share` blocks, the log of two or more processes comes to hold up
  to `10 + 2 * share` blocks while an operation is open, and it panics exactly if that reaches either
  limit (`JournalPanic.PanicIff`), be it on a block that is in the log already. With the 30 log blocks
  that mkfs lays out, nine blocks are safe from that and ten are not (`JournalBuffers.MkfsLog`);
  `file_write` logs at most seven there, `dirlink` four and `itrunc` two (`LogShare.MkfsWritesAreSafe`).
- **The guard is read without the lock** (kern/log.c:220-224). Two processes can pass it together, and
  the log then outgrows its sectors, exactly if it has at least one sector and not more of them than
  the peak needs (`JournalPanic.OverrunIff`).
- **There are as many buffers as a transaction can have blocks** (inc/fs.h:16, 22), and `bget` takes
  none that is pinned or held (kern/bio.c:80-92), be it by a process outside any operation, as
  `file_read` is (kern/file.c:99-113). A `bread` of commit panics in some run exactly if the most blocks
  that can be pinned and the buffers that processes hold at once can be all NBUF
  (`JournalBuffers.StuckIff`), and so does a `bread` of a process (`JournalBuffers.StarvedIff`). With the
  log of mkfs and operations that add up to seven blocks, 24 buffers get pinned: six held at once make
  `bget` panic, five do not (`LogShare.MkfsWritesAreSafe`), while there may be 64 processes
  (inc/proc.h:11). With nobody else there, commit panics exactly if all NBUF are pinned, before its
  first write (`Log.Log.Commit`).
- **uvm_alloc cannot fail after its first page.** It takes pages back with `kfree` of an address that
  has been made physical already (kern/vm.c:109), which panics (`Space.UvmOutcome`, `Space.UvmAlloc`,
  `Space.PanickingGrowth`).
- **The sizes of uvm_alloc need to be page-aligned**, though its comment says otherwise
  (kern/vm.c:186-187) and `growproc` passes any (kern/proc.c:348-353). From a size within a page, that
  page is replaced by a zero page and its frame lost, and the end of the new size may stay unmapped
  (`Space.GrowthOfProcess`).
- **mkfs rounds the root up by a block too many** if it fills whole blocks already
  (user/src/mkfs/main.c:176). Its size then asks for a block it does not have
  (`MkfsMain.RoundedRoot`).
- **mkfs counts neither inodes nor blocks** (user/src/mkfs/main.c:241, 286-295). It gives out inodes
  beyond the `ninodes` of the super block exactly if there are more files than that leaves room for
  (`MkfsMain.Build`); the first eight of them still fall inside the inode blocks, which have 208 slots
  for 200 inodes.

## Model

| member | source | states |
|---|---|---|
| Cache.PushLinks | kern/bio.c:139-142 | the four pointer stores that link a buffer behind the head leave next and prev spelling out the same ring in both directions, that buffer first |
| Cache.UnlinkLinks | kern/bio.c:137-138 | the two stores that unlink a buffer leave next and prev spelling out the ring without it |
| Cache.FrontIsRecent | kern/bio.c:127-145 | moving the buffer released last to the front keeps the ring sorted by time of release |
| Cache.UniqueIdentity | kern/bio.c:70-92 | no two buffers ever stand for the same block of the device |
| Cache.TakeKeeps | kern/bio.c:70-92 | finding or recycling a buffer keeps the table sound and what bread shows of every block; the buffer has one holder more, or one if it was recycled, and all others stay |
| Cache.WriteKeeps | kern/bio.c:115-121 | writing a held buffer out keeps the table sound |
| Cache.BufferCache.constructor | kern/bio.c:40-57 | after binit all buffers are on the ring, unused, the last one first |
| Cache.BufferCache.Lookup | kern/bio.c:70-78 | the walk from the head finds the block exactly if some buffer holds it |
| Cache.BufferCache.Victim | kern/bio.c:80-92 | the walk from the tail finds the least recently released buffer that is neither held nor dirty, and none only if there is none |
| Cache.BufferCache.Bget | kern/bio.c:64-96 | hands out the buffer of the block or recycles that victim; panics exactly if the block is not cached and every buffer is held or dirty; the buffer then has one holder more, and all others stay |
| Cache.BufferCache.Bread | kern/bio.c:101-110 | the buffer of sector blockno + LBA with the newest contents of it, no block showing anything else than before |
| Cache.BufferCache.Bwrite | kern/bio.c:115-121 | exactly one sector write, of the held buffer; the buffer is clean afterwards |
| Cache.BufferCache.Brelse | kern/bio.c:127-145 | any held buffer: one holder less; the last one moves it to the front of the ring; the cache stays sound unless the buffer let go is clean and unlike its sector |
| Redo.HeadBlockAt | kern/log.c:106-115 | the header block holds the count and the block numbers, and its other words stay |
| Redo.EntriesOfHead | kern/log.c:91-115 | read_head gives back the numbers that write_head wrote |
| Format.HeadBytes | kern/log.c:106-115 | the header is the count and the block numbers, in little-endian words |
| Redo.StageNext | kern/log.c:181-204 | every single sector write of a commit takes the device from one stage to the next: logging, installing, done |
| Redo.CommitStage | kern/log.c:181-204 | the stage of the device after any number of the writes of a commit |
| Format.CommitSectors | kern/log.c:181-204 | the k-th block goes to the sector k + 1 behind the header, then home; the header is written between and at the end; each number counts from LBA |
| Redo.RecoveredAt | kern/log.c:75-124 | recovery copies every logged block home, touches no other sector but the header, and leaves the log empty |
| Redo.RecoverAgain | kern/log.c:75-124 | recovery cut short after any sector write and run again ends as if it had not been cut short |
| Redo.RecoveryIdempotent | kern/log.c:75-124 | so do any number of crashes inside recovery |
| Redo.CommitCrash | kern/log.c:194-204 | a crash after k writes of a commit and a recovery: home sectors untouched if the header was not written, the whole transaction if it was |
| Redo.RunIsStore | kern/log.c:194-204 | committing transactions one after another is applying each at once |
| Redo.CrashAtomicity | kern/log.c:75-204 | after any transactions, a crash at any sector write of the next commit, and any number of crashes in recovery, the home sectors are exactly those before or exactly those after it, and the log is empty |
| Redo.DurableExactlyAtZeroLba | kern/bio.c:101-110 | a commit makes the recorded buffers durable if and only if LBA is 0 (or nothing is recorded) |
| Log.QuietRoomy | kern/log.c:194-204 | with no buffer held and exactly the recorded blocks dirty, fewer than NBUF of them leave commit a buffer |
| Log.QuietJammed | kern/log.c:194-204 | with NBUF of them no buffer can be recycled, and none holds a sector of the log |
| Log.Log.WriteLog | kern/log.c:181-192 | the newest contents of the recorded blocks go to the log sectors, each once and in order |
| Log.Log.InstallTrans | kern/log.c:75-86 | the log sectors go to the home sectors, each once and in order |
| Log.Log.WriteHead | kern/log.c:106-115 | one sector write, of the header with the numbers in memory |
| Log.Log.Commit | kern/log.c:194-204 | the sector writes are a prefix of the commit as specified, all of them unless bget panics; with no buffer held, that happens exactly if all NBUF buffers are pinned, and then before the first write |
| Log.Log.ReadHead | kern/log.c:91-99 | the header in memory is the one on the device |
| Log.Log.RecoverFromLog | kern/log.c:117-124 | does exactly the sector writes of recovery, never runs out of buffers at boot, and leaves an empty log |
| Log.Log.LogWrite | kern/log.c:217-235 | panics exactly if the log is full by either limit or no operation is open; otherwise the block is recorded once (absorbed if it is there) and its buffer pinned |
| Journal.RecordReachesIff | kern/bio.c:101-110 | a recorded block number, given to bread again, reaches the buffer it was recorded for if and only if LBA is 0 |
| Journal.Undone | kern/bio.c:64-145 | brelse undoes the acquiring of a buffer that was not changed, recycling undoes filling, and a filled buffer holds its sector |
| JournalBooks.RunBooks | kern/log.c:130-235 | on every run of any number of processes, crashes included, recorded blocks and unused budgets of open operations stay within the peak, with any log size and any LBA |
| JournalBooks.ReservationHolds | kern/log.c:130-176 | on every run an open operation keeps the room for what it may still add, absorbed calls being free, commit never starts under it, and an idle log admits the next operation |
| JournalBooks.ShareFits | kern/log.c:136-141 | an operation whose blocks are within its share may make any number of log_write calls |
| JournalInv.StepInv | kern/log.c:75-235 | every step of processes, commit, cache, crash and recovery keeps the invariant: pinned buffers are exactly the recorded blocks not yet installed, and the device is at the stage that commit has reached |
| JournalRun.StepAbstract | kern/log.c:130-235 | every step is one of the transactional store: a change is seen at once, the header write saves all of them, a crash goes back to what was saved, and nothing else shows |
| JournalRun.RunIsReplay | kern/log.c:130-235 | for every interleaving, bread shows what replaying the changes gives, a crash would leave what the last header write saved, and the header is written only while no operation is open; for LBA 0, the only one for which it holds, and a log that is not outgrown |
| JournalRun.NothingLost | kern/log.c:151-176 | on every run, when no operation is open and commit has written its header, a crash loses nothing |
| JournalRun.WriteAhead | kern/log.c:181-234 | on every run, until install_trans copies it a recorded block stays in its buffer and its home sector is not written; then it gets the newest contents |
| JournalLba.ReplayExactlyAtZeroLba | kern/bio.c:107 | over all runs of a machine that can log a block, in a log that is not outgrown, recovery leaves what the last header write saved if and only if LBA is 0 |
| JournalPanic.PanicIff | kern/log.c:220-222 | some run of at least one process meets the guard of log_write, absorbed calls included, if and only if the peak reaches LOGSIZE or log.size - 1 |
| JournalPanic.AppendPanicIff | kern/log.c:220-222 | some run meets it with a block that is new to the log if and only if log.size is at most the peak |
| JournalPanic.OverrunIff | kern/log.c:220-232 | some run records more blocks than the log has sectors, two processes having passed the test together, if and only if there are two processes and 2 <= log.size <= peak |
| JournalBuffers.StuckIff | kern/bio.c:80-94 | some run in which processes never hold more than h buffers at once, in operations or outside, has a bread of commit panic in bget, if and only if blocks can be logged at all and the most that can be pinned and h together reach NBUF |
| JournalBuffers.StarvedIff | kern/bio.c:80-94 | the same for a bread of a process that then holds no more than h: if and only if the most that can be pinned and h reach NBUF, or, where nothing can be logged, h is more than NBUF |
| JournalBuffers.MkfsLog | user/src/mkfs/main.c:35 | with the log that mkfs makes, two processes and LBA 0: no panic in log_write and no outgrown log if and only if no operation adds more than nine blocks; and then a bread panics in bget in some run if and only if h buffers held besides 10 + 2 * share pinned ones can be all NBUF |
| JournalFiles.SavedIsQuiet | kern/log.c:151-176 | on every run, what a crash goes back to is what bread showed at a moment when no operation was open |
| JournalFiles.CrashKeepsOperations | kern/log.c:75-204 | wherever a schedule that carries out operations is cut off, recovery leaves the volume as some number of the operations that had ended left it, each whole |
| JournalFiles.CrashedWrite | kern/file.c:118-151 | so a file_write cut off by a crash leaves a sound volume on which the file is the old one with a number of whole chunks spliced in, and every other file is as it was |
| LogShare.ChunkIsOperation | kern/file.c:130-141 | the blocks a chunk of file_write logs are within the budget the log gives an operation, at every one of its log_write calls |
| LogShare.WritesAreSafe | kern/file.c:123-128 | with operations of file_write only, log.size LOGSIZE and b bitmap blocks: no panic in log_write, no outgrown log and no bread without a buffer if and only if b <= 3 and processes hold fewer than 8 - 2 * b buffers at once |
| LogShare.TruncIsOperation | kern/fs.c:418-441 | the blocks that itrunc logs are within what an operation may add if the bitmap has at most nine blocks |
| LogShare.OutsideLog | kern/fs.c:63-97 | no inode, bitmap or data block is a sector of the log |
| LogShare.MkfsWritesAreSafe | user/src/mkfs/main.c:101-111 | on the volume that mkfs lays out, a chunk of file_write logs at most seven blocks, dirlink four and itrunc two; and runs of operations of up to seven are safe in all these ways if and only if processes hold at most five buffers at once |
| SchedInv.OneCpu | kern/proc.c:163-192 | no two CPUs have chosen the same process |
| SchedInv.NextInv | kern/proc.c:163-342 | every memory access of every CPU keeps the invariant: who owns which spinlock, which process is on which CPU, and who will still wake whom |
| SchedRun.RunInv | kern/proc.c:163-342 | it holds on every run |
| SchedRun.Exclusion | kern/spinlock.c:10-37 | at most one CPU is between acquire and release of a lock; holding is true on exactly that CPU, and no other CPU can change its answer |
| SchedRun.NoPanic | kern/spinlock.c:22-37 | in no reachable state does acquire meet a lock that this CPU holds, release one that it does not hold, sched an unlocked or RUNNING process, or exit a return; and thisproc is always the process that runs |
| SchedRun.ExclusiveRunning | kern/proc.c:163-208 | whenever a process lock is free, its process is RUNNING if and only if exactly one CPU has it as c->proc, and that CPU runs on its stack |
| SchedRun.OneStack | kern/proc.c:184-207 | no two CPUs are ever on the same stack |
| SchedRun.NoLostWakeup | kern/proc.c:290-330 | whenever the lock of a condition is free and a sleeplock is not locked, the log not committing with 10 blocks of 30 left beyond those reserved, or the read and write indices differ, nobody is asleep on it or on the way to sleep |
| SchedHistory.OneHolder | kern/sleeplock.c:11-39 | on every run in which only a process that holds the sleeplock releases it: between passing the test of acquiresleep and releasesleep a process has the lock in its name, which is what holdingsleep answers; no two are inside, none passes while one is, and passes minus releases is 1 while it is locked and 0 otherwise |
| SchedHistory.OperationsCounted | kern/log.c:130-176 | on every run log.outstanding is the operations begun minus those ended, committing is set from the end of the last open one to the end of its commit, during which none begins, ends or is open; and one begins only with 10 blocks of 30 left for it and for each open one |
| SchedHistory.BytesCounted | kern/console.c:55-64 | on every run the read and write indices are the bytes taken and the bytes committed, and no byte is taken before it is committed |
| SchedHistory.OnlyByPassing | kern/proc.c:290-314 | a process inside acquiresleep, begin_op or console_read stays inside, awake or asleep, until it gets past the test under the lock; only console_read may give up |
| SchedRun.NoDeadlock | kern/spinlock.c:26-27 | in every reachable state some CPU is not spinning on a lock that is taken |
| SchedRun.CanStep | kern/proc.c:163-192 | and such a CPU can take a step |
| SchedTurn.StateChanges | kern/proc.c:163-342 | in every reachable state and under the process lock only: RUNNABLE becomes RUNNING by the scheduler that has it as c->proc, RUNNING becomes RUNNABLE, SLEEPING or ZOMBIE by the process itself, and SLEEPING becomes RUNNABLE by a wakeup on its channel under the lock of the condition; nothing else changes a state |
| SchedTurn.RunsNext | kern/proc.c:167-184 | with the process locks free, a CPU in the loop of the scheduler comes by its own steps to run the first runnable process from where it stands, around the table, and nothing else has changed |
| SchedTurn.GoesOn | kern/proc.c:186-189 | after a process has switched back its lock is released and the search goes on behind it |
| Frames.FreeableIsManaged | kern/kalloc.c:41-42 | the test of kfree accepts exactly the page-aligned pointers to frames between end and PHYSTOP |
| Frames.GivenOk | kern/kalloc.c:45-51 | a frame given back is on the free list, once, its words but the link are 0x0101010101010101, and no frame but it changes |
| Frames.Machine.Kalloc | kern/kalloc.c:68-76 | the head of the free list, or 0 exactly if it is empty; memory stays |
| Frames.Machine.Kfree | kern/kalloc.c:37-52 | panics exactly at an address that is no frame; otherwise the frame is filled with junk and pushed, and the free list stays sound exactly if the frame was not on it already |
| Frames.Machine.FreeRange | kern/kalloc.c:55-60 | afterwards exactly the frames between end and PHYSTOP are free |
| PageTable.OnStep | inc/mmu.h:28 | the index of each level picks the next table on the way to the page number of the address |
| PageTable.AddOk | kern/vm.c:26-27 | a cleared frame hung into an empty entry leaves a tree for the same flat map; the entry is the address of the frame and 0x43: valid, a table, for the user |
| Vm.DescentIs | inc/mmu.h:28 | the flat map is what a walk by the four nine-bit fields of the address finds, table by table, in memory |
| Vm.LeafAt | kern/vm.c:87-88 | a leaf entry is valid, points to the page, and has bit 6, for the user, exactly if the permissions have |
| Vm.LeafFlags | kern/vm.c:87-88 | the other low bits of a leaf entry: those of the permissions and bits 0, 1, 2, 8, 9 and 10 |
| Vm.LeafedOk | kern/vm.c:87-88 | storing a leaf entry changes the flat map at that page number and nowhere else |
| Vm.PdeValidate | kern/vm.c:19-30 | at most the one missing table is made; it fails exactly if the table is missing and none may be made or there is no frame |
| Vm.PgdirWalk | kern/vm.c:44-57 | the pointer to the entry that the flat map reads, or 0 exactly if the address is not canonical or a table is missing and cannot be made; the flat map stays, and only tables on the way are made |
| Vm.MapRegion | kern/vm.c:81-91 | the flat map is updated at the pages from va on, one by one, and nowhere else; it stops only at an address that is not canonical or without a frame for a missing table |
| Vm.MappedIs | kern/vm.c:81-91 | what the updates come to: the page numbers of the region map to the pages from pa on |
| Vm.MapFits | kern/vm.c:22-25 | it runs out of frames exactly if fewer are free than tables are missing, and otherwise takes exactly those |
| Vm.AddrWalk | kern/vm.c:64-72 | the page of an address exactly if its bits 63..48 are all alike and its entry has bit 0 and bit 6, and 0 otherwise; nothing changes |
| Space.PageMapped | kern/vm.c:201-203 | mapping a fresh frame keeps every frame with one owner; the frame of a page that was there before loses its owner |
| Space.GrowPage | kern/vm.c:195-208 | a fresh zero page at va, and all frames accounted for; fails exactly if too few frames are free for the page and the tables missing on the way, and then changes no mapping |
| Space.UserLeafAt | kern/vm.c:201-203 | the entry of a grown page is the address of its frame and 0x747 |
| Space.Dealloc | kern/vm.c:98-112 | panics exactly if there is a page to free, counted in 32 bits, or the new size is not page-aligned; otherwise nothing changes |
| Space.UnmapPanics | kern/vm.c:109 | because kfree refuses an address that is already physical |
| Space.UvmAlloc | kern/vm.c:189-210 | a smaller size is answered with the old one and nothing changes; otherwise grown, out of memory or panicking, told exactly from the free frames and the tables there are; the new pages are fresh and zero, the others stay, and every frame is free, owned, or lost with a page that was replaced |
| Space.PanickingGrowth | kern/vm.c:194-208 | four free frames and a root table: growing an empty process by two pages panics |
| Space.GrowthOfProcess | kern/vm.c:186-194 | growing loses no frame if and only if the old size is page-aligned (or nothing is grown); and the pages cover the new size exactly if the rest of the last page makes up for the rounding |
| Copy.PokedOk | kern/vm.c:298 | writing a data page leaves the page table that is being walked, the free list and all other pages alone |
| Copy.Copyout | kern/vm.c:288-301 | a prefix of the bytes is copied and nothing else changes, neither memory nor mapping; it answers -1 exactly if it stopped, and then the next address is not canonical or its entry lacks bit 0 or bit 6 |
| Copy.AllAllowed | kern/vm.c:64-72 | every address copied to is canonical and its entry has bit 0 and bit 6 |
| Copy.Arrives | kern/vm.c:288-301 | every copied byte is what the user reads at its address afterwards |
| Guard.UvmClear | kern/vm.c:275-281 | the entry of the page loses bit 6 and nothing else changes; panics exactly if there is no table for the address |
| Guard.GuardHolds | kern/exec.c:96 | no byte of a page whose entry lacks bit 6 is changed by copyout, and a range that meets such a page makes it answer -1 |
| Guard.MappedGuard | kern/vm.c:81-91 | pages mapped by map_region have bit 6 exactly if the permissions have |
| Reap.OrderIsOwned | kern/vm.c:126-132 | the order in which vm_free meets frames lists exactly the frames of the address space |
| Reap.VmFree | kern/vm.c:117-133 | frees the frames below one table, each once, and panics nowhere |
| Reap.FreeSpace | kern/vm.c:117-133 | after vm_free(pgdir, 4) exactly the tables and pages of the address space have joined the free list, each once, and no other frame changed |
| Layout.SuperBack | kern/fs.c:38-44 | readsb reads back the super block that was written |
| Layout.PutDinodeSelf | kern/fs.c:229-235 | an inode written to its slot is read back |
| Layout.PutDinodeOther | kern/fs.c:229-235 | the other inodes of the block stay |
| Layout.AbsSet | kern/fs.c:69-72 | setting a bit in a bitmap block adds exactly that block to the blocks in use |
| Layout.AbsInode | kern/fs.c:226-238 | writing an inode slot changes exactly that inode of the volume |
| Format.SuperBytes | inc/fs.h:35-43 | the super block is seven little-endian words in this order |
| Format.InodeBytes | inc/fs.h:50-57 | inode i is bytes 64 * (i % 8) and on of block inodestart + i / 8: type, major, minor and nlink in two bytes each, size and 13 addresses in four each |
| Format.BitmapBytes | kern/fs.c:63-72 | block b is in use exactly if bit b % 8 of byte b % 4096 / 8 of block bmapstart + b / 4096 is set |
| Format.FileBytes | kern/fs.c:381-408 | byte o of a file is byte o % 512 of the block that address o / 512 names, or from the twelfth on word o / 512 - 12 of the indirect block |
| Format.EntryFields | inc/fs.h:74-77 | entry k of a directory is bytes 16 * k and on: two of inode number and 14 of name |
| Format.EntryWritten | kern/fs.c:574-575 | a written entry has the number in its first two bytes and the name up to a NUL, then zeros |
| Volume.GavePtrSound | kern/fs.c:387 | a free block given to a direct or the indirect pointer keeps every block with one owner and no file with a hole |
| Volume.GaveEntrySound | kern/fs.c:399-402 | the same for an entry of the indirect block |
| Fs.FileSystem.Balloc | kern/fs.c:63-82 | the lowest free block, zeroed and marked; panics exactly if there is none |
| Fs.FileSystem.Bfree | kern/fs.c:87-97 | the block is free afterwards; panics exactly if it was before |
| Fs.FileSystem.Iupdate | kern/fs.c:225-238 | the inode on the device becomes the one in memory and nothing else changes |
| Fs.FileSystem.ReadInode | kern/fs.c:297-312 | the inode in memory becomes the one on the device; panics exactly if that is free |
| Fs.FileSystem.Bmap | kern/fs.c:381-408 | the block of the file at that place, made and zeroed if it is just beyond the end; all bytes of all files stay, every block keeps its one owner; panics exactly if fewer blocks are free than it takes, and logs what it changes |
| FsFile.Readi | kern/fs.c:468-487 | -1 exactly if the offset is beyond the end or the range wraps; otherwise the bytes of the file from there on, as many as asked for or up to the end, and their number: at the end none and 0; nothing changes |
| FsFile.ChunkFits | kern/file.c:123-128 | a chunk logs at most six blocks and up to four bitmap blocks, wherever it begins |
| FsFile.Writei | kern/fs.c:493-518 | -1 exactly if the offset is beyond the end, the range wraps or would end beyond 140 blocks, changing nothing; otherwise all of src is written: the bytes of the file are the old ones with src in place and the other files have theirs, every block has one owner, and the inode on the device is the one in memory; panics exactly if fewer blocks are free than the file comes to need; at most the bounded number of blocks logged |
| FsFile.WriteIsSplice | kern/fs.c:493-518 | as byte sequences: this file is spliced, every other file is the same |
| FsFile.WriteThenRead | kern/fs.c:468-518 | a write followed by any read gives the bytes of the old file with src spliced in, from the offset to the end or as many as asked for; both answer -1 exactly at a bad range |
| FsTrunc.ShrunkSound | kern/fs.c:418-441 | with all its pointers gone the file is sound at size 0, and exactly its blocks have become free |
| FsTrunc.Itrunc | kern/fs.c:418-441 | frees every block of the file, each once, so that the panic of bfree does not happen; the other files and their blocks stay; only bitmap blocks and the inode block are logged |
| FileWrite.SpliceTwice | kern/file.c:137-147 | two adjoining splices are one |
| FileWrite.ChangedLogged | kern/file.c:133-141 | every block in which the device differs from how a write found it, after any number of its operations, was logged by one of them |
| FileWrite.WriteChunk | kern/file.c:135-141 | one operation: logs every block it changes, within its share, and moves the offset by what was written |
| FileWrite.Write | kern/file.c:118-151 | writes the chunks that fit the file, each in one operation, after which the device shows the file with the chunks up to there; answers n or -1 accordingly; panics exactly if fewer blocks are free than the file comes to need; every operation logged the blocks it changed, and no more than its share |
| Directory.NameEqIff | kern/fs.c:522-526 | namecmp says equal exactly if the names are the same up to a NUL or 14 bytes |
| Directory.LinkIsUpdate | kern/fs.c:554-580 | an entry written into a free slot updates the finite map at that name and nowhere else; an inode number of 0 leaves the map as it was; names are distinct exactly if they were |
| DirOps.Dirlookup | kern/fs.c:532-549 | the inode number and place of the first entry of that name, 0 if there is none; panics exactly at a file that is no directory, or one that ends inside an entry with the name not found |
| DirOps.FindFree | kern/fs.c:566-572 | the first free entry, or the end; panics exactly if no entry is free and the directory ends inside one |
| DirOps.Dirlink | kern/fs.c:554-580 | -1 exactly if the name is there, changing nothing; else the entry is written in the first free place; panics exactly if the file is no directory, is torn, or has no room or block for the entry; logs at most three blocks and two bitmap blocks |
| DirOps.DirlinkIsUpdate | kern/fs.c:554-580 | so lookups of that name answer the new inode and all others what they did before, whether or not names repeat |
| Mkfs.CostIs | user/src/mkfs/main.c:282-307 | the blocks that one round of iappend gives out are the growth of what a file of that size needs |
| Mkfs.Image.Iappend | user/src/mkfs/main.c:269-310 | appends the bytes, taking exactly the blocks the file comes to need; stops exactly at a file too long or an image too small, which main notices only in the first case |
| Mkfs.Image.Ialloc | user/src/mkfs/main.c:239-250 | the next inode, of that type, with one link and no bytes |
| MkfsMain.MkfsSuperOk | user/src/mkfs/main.c:101-111 | main lays out 1000 blocks: 30 of log from block 2, inodes from 32, the bitmap at 58, 941 of data; the regions do not overlap |
| MkfsMain.BitmapBlock | user/src/mkfs/main.c:253-264 | exactly the first used bits are set |
| MkfsMain.RoundedRoot | user/src/mkfs/main.c:173-178 | rounding the size of the root adds zero entries if its size was not whole; if it was, there is a hole, and the volume is sound under no ownership |
| MkfsMain.Build | user/src/mkfs/main.c:77-183 | exactly the lists of files that fit the inodes, the blocks and the root become an image, and it is a sound volume with those files, types and link counts (unless the root fills whole blocks); main strays outside the inode table exactly if there are too many files |
| MkfsMain.RootIsMap | user/src/mkfs/main.c:128-166 | the root lists every file under its inode; no name stands twice exactly if the inputs are distinct and none is "." or ".." |
| MkfsRead.ReadFile | user/src/mkfs/main.c:138-171 | what mkfs wrote is what the kernel reads: looking a file up in the root and reading its inode gives the bytes of the input, up to its end |
| Grammar.RedirsBack | user/src/sh/main.c:371-390 | a run of redirections is read back in order |
| Grammar.ArgsBack | user/src/sh/main.c:406-433 | up to nine words and the redirections behind them are read back |
| Grammar.PiecesRead | user/src/sh/main.c:406-433 | words and redirections of a simple command in any order: the words, nine at most, are its arguments in order, and the redirections go around it in order, the last outermost |
| Grammar.LineBack | user/src/sh/main.c:341-433 | every command with at most nine words in each part, written with parentheses where they are needed, is parsed into itself |
| Grammar.AppendIsOutput | user/src/sh/main.c:382-387 | >> in place of > makes no difference to what a line is parsed into |
| Grammar.LeftoverRefused | user/src/sh/main.c:332-336 | a closing parenthesis behind a whole command, with anything after it, is refused as left over |
| Grammar.UnclosedRefused | user/src/sh/main.c:400 | a parenthesis that is not closed is refused |
| Grammar.NoFileRefused | user/src/sh/main.c:379-380 | a redirection at the end of a line or before a symbol is refused |
| Grammar.ParenRefused | user/src/sh/main.c:423 | a parenthesis behind a word is refused |
| Grammar.TenRefused | user/src/sh/main.c:427 | ten words or more to a command are refused |
| Lexer.TokensBack | user/src/sh/main.c:268-306 | tokens on a line with any blanks, tabs, returns, newlines and vertical tabs before, between and behind them, or none where two do not run together, are read back |
| Lexer.RoundTrip | user/src/sh/main.c:268-433 | from a command to a line of text in any such layout, with >> for any > , and back |
| Lexer.TypedLine | user/src/sh/main.c:268-433 | a command typed with blanks between its tokens and a newline at the end is parsed into itself |
| Shell.Parser.GetToken | user/src/sh/main.c:271-306 | takes the next token of the line as TokensBack reads it; a word is a whole word of the line |
| Shell.Parser.Peek | user/src/sh/main.c:308-317 | whether the next character that is not white is one of these; the tokens stay |
| Shell.Parser.ParseRedirs | user/src/sh/main.c:371-390 | the redirections here; panics exactly if a file name is missing |
| Shell.Parser.ParseLine | user/src/sh/main.c:341-356 | the command that the grammar gives, or its panic; the tokens behind it are left |
| Shell.Parser.ParsePipe | user/src/sh/main.c:358-369 | the same |
| Shell.Parser.ParseBlock | user/src/sh/main.c:392-404 | the same |
| Shell.Parser.ParseExec | user/src/sh/main.c:406-433 | the same; a redirection is its file and whether it is for output, which its mode and descriptor are read off |
| Shell.Nulterminate | user/src/sh/main.c:436-478 | zeros are written behind the words of the command and nowhere else |
| Shell.WordsReadBack | user/src/sh/main.c:436-478 | then every word, read as a C string, is the text that gettoken found: no zero falls inside a word |
| Shell.ParseCmd | user/src/sh/main.c:324-339 | panics exactly as the grammar says, leaving the line alone; otherwise returns the command, its words terminated in place |
| Console.KeyAppends | kern/console.c:192-224 | a key never changes committed bytes, and commits the edited line only as a whole |
| Console.LineTyped | kern/console.c:212-223 | ordinary bytes and then return, newline or C-d commit exactly these bytes and a newline or the mark |
| Console.LineKilled | kern/console.c:198-204 | C-u takes back all of the line typed so far |
| Console.Undone | kern/console.c:205-211 | backspace or delete undoes an ordinary key |
| Console.AtTheEdge | kern/console.c:192-224 | the key that fills the ring of 128 bytes commits; on a full ring, or with nothing to take back, keys do nothing, and NUL and C-p never change the line |
| Console.Input.KillLine | kern/console.c:198-204 | the edited line is gone and nothing else |
| Console.Input.Intr | kern/console.c:180-229 | the keys act on the line one after another, and committed bytes that are not read yet stay in the ring |
| Console.Input.ReadTurn | kern/console.c:55-80 | delivers the next committed bytes up to a line end or n; an end-of-file mark ends it, and is taken only if nothing was delivered before it; a turn that sleeps or is killed has met no line end; answers the number of bytes this read has got, or -1 |
| Console.TurnEnds | kern/console.c:55-76 | where a turn ends, told from the first newline or mark among the unread bytes: a newline within n bytes is delivered and returns, a mark returns, n bytes return, and otherwise all there is is delivered and the reader sleeps, or dies if killed |
| Console.RunDelivers | kern/console.c:49-81 | for every interleaving of interrupts and readers, the bytes delivered are the committed bytes in order, without the end-of-file marks, and every mark ended one read |

## Left out

Hypotheses that a contract makes:

- JournalRun.RunIsReplay: for LBA 0 and a log that its operations do not outgrow; JournalLba.ReplayExactlyAtZeroLba shows that the first cannot be done without, and JournalPanic.OverrunIff when the second fails. The same holds for NothingLost and WriteAhead. What an operation adds to the log is a parameter of the machine, at most MAXOPBLOCKS; it is bounded for `file_write`, `dirlink` and `itrunc`, not for the operations that system calls compose of several (create, unlink, exec).
- JournalBuffers.StuckIff: how many buffers processes hold at once is a parameter; it is not derived from the code of each system call.
- JournalBuffers.StarvedIff: for a device with one sector more than StuckIff asks for.
- JournalFiles.CrashedWrite: for a schedule whose operations leave, whenever none is open, what the write's operations leave one after another, as the schedule of one process does until it crashes; that the steps of `file_write` make up such a schedule is not derived from its code.
- JournalPanic.PanicIff: for a device with room for LOGSIZE blocks besides the log, and so are the other conditions of that module.
- SchedHistory.OneHolder: for runs in which only the holder calls releasesleep; brelse and iunlock see to that themselves with holdingsleep (kern/bio.c:130, kern/fs.c:321), and so does iput by having taken the lock itself.
- Redo.CrashAtomicity: a sector write happens whole or not at all, and in the order in which it is asked for.
- Log.Log.Commit: one process at a time; the interleavings are those of Journal. Sectors have numbers below 2^32.
- Log.Log.ReadHead: for a header with a count of at most LOGSIZE; beyond, the C code copies past the end of its array.
- Frames.Machine.Kfree: a frame that is on the free list already is accepted, as in the C code; what becomes of the list then is only that it is no longer sound.
- Vm.MapRegion: for a size up to 2^64 - 4096 and permission bits below 4096; beyond, its counter wraps.
- Space.UvmAlloc: for an old size that leaves all of physical memory below 2^48.
- Space.Dealloc: up to the first page that it frees: there it panics, in `kfree` or before it.
- Copy.Copyout: for a range that does not wrap, and bytes that are not themselves in the user's frames. UvmClear is the same kind of walk; exec itself is not modelled.
- FsFile.Writei: for regular files and directories without holes, which is what the file system keeps; inodes of devices, which `readi` and `writei` hand on to their drivers, are not part of this model.
- FsFile.Readi: the same.
- FsFile.WriteThenRead: the same.
- Mkfs.Image.Ialloc: for the types in the order in which main asks for them, the root first and then files.
- FileWrite.Write: for fewer than 2^31 bytes. When it panics, nothing is said of the bytes of the file.
- MkfsMain.Build: mkfs is followed until it gives out an inode or a block outside the image. The names are those that main passes on after it has stripped paths and underscores, and the byte order is the machine's.
- MkfsRead.ReadFile: for distinct names and a root that does not fill whole blocks.
- Shell.Parser.ParseExec: the words and redirections of a simple command are collected as values and put together at the end, where the C code keeps adding words to a command that is wrapped already. `>` and `>>` make the same redirection, as in the C code.
- Console.Input.ReadTurn: the indices do not wrap around. A reader that is killed while it waits counts as one that stops there: bytes it has taken count as delivered, although console_read answers -1 then (kern/console.c:57-61).

Parts of the repository that are not modelled:

- The drivers (kern/sd.c, kern/mbox.c, kern/uart.c, kern/timer.c, kern/clock.c), traps and interrupts, assembly, and the hard-coded kernel page table: `sd_rw` is one sector access, `swtch` an exchange of contexts, and memory is sequentially consistent.
- Liveness and fairness of spinning and scheduling. Safety is proved, the absence of a state in which every CPU spins, and what a scheduler does that no other CPU disturbs.
- `fork`, `wait`, `proc_free` and the reparenting in `exit`, which is only the step to ZOMBIE.
- `uvm_copy`, `uvm_load`, `uvm_init`, and `uvm_unmap` beyond its first page.
- The inode cache (`iget`, `iput`, `idup`, `iunlock`), the kernel's `ialloc`, path names (`namex`), `stati`, pipes, the file table, and system calls: argument plumbing and reference counts.
- The locks of the free list, of the bitmap and of inodes: those operations are modelled one at a time.
- The shell beyond its parser (`runcmd`, the main loop, `malloc1`), the other user programs, `vprintfmt`, echo on the console, and `execve`.
