# netOS in Dafny

A model of the parts of the netOS kernel, its user library and its image builder that work on
memory, lists and counters, with proofs of what they rely on. `dafny verify dfyconfig.toml` checks
everything.

Code that changes state in place is modelled twice: by functions on values, about which the
theorems are proved, and by classes whose methods follow the statements of the code, loop by loop,
and are proved to compute those functions. The names end in `Code` for the latter.

| files | what they model |
|---|---|
| `Heap*` | the boundary-tag allocator of kernel and user library (`kernel/heap.cc`, `user/heap.c`) |
| `Fat*` | the FAT439 file system: open files, writing, reading, the directory (`kernel/fs.cc`, `kernel/fs.h`, `kernel/block.cc`) |
| `Mkfs*`, `FatImage` | the image builder, and reading its images (`fat439/mkfs.c`) |
| `Sched*`, `QueueCode` | processes, semaphores, events, timers and the interrupt bracket (`kernel/process.cc`, `kernel/semaphore.*`, `kernel/pic.cc`, `kernel/pit.cc`, `kernel/queue.h`) |
| `Buffer*` | the bounded buffer under any interleaving (`kernel/bb.h`) |
| `Vmm*` | frames, two-level page tables, address spaces (`kernel/vmm.cc`) |
| `Ref*` | reference counts of resources, tables and open files (`kernel/resource.h`, `kernel/table.cc`, `kernel/fs.cc`) |
| `Print*` | integer printing and `strtol` (`kernel/snprintf.cc`, `kernel/string.cc`) |
| `Shell*` | trimming and tokenizing a command line (`user/libstr.c`) |

## Main results

- **Heap.** Every run of `malloc` and `free` keeps blocks tiling the array, a well-linked list of
  exactly the free blocks, and no two free neighbours (`HeapRuns.RunKeepsValid`). For the client it
  is a store of disjoint objects that only their owner changes (`HeapRuns.RunKeepsObject`), and
  freeing everything in any order restores the initial block (`HeapRuns.AllFreed`).
- **File system.** A write keeps the partition of the data blocks into file chains and free chain
  exactly under a condition on the number of free blocks (`FatSafety.WriteVerdict`), and what was
  written is read back (`FatDirectory.WriteReadsBack`). What `mkfs` stores is found and read
  (`FatImage.ReadFromImage`), and from there on, over any sequence of fitting writes, the partition
  holds and every file holds what was written to it last (`FatRuns.ImageRun`).
- **Scheduler.** In every reachable state each process is in one place and interrupts are on exactly
  when nothing is open (`SchedRuns.RunStable`); queues are FIFO and a ready process runs in turn
  (`SchedTheorems.RunsInTurn`); semaphores conserve tokens (`SchedSync.SemaphoreConservation`); two
  holders of a mutex are the same process (`SchedMutex.OneHolder`); sleepers wake at their tick
  (`SchedTimers.WokenOnTime`); join reads the exit code after it was set (`SchedJoin.JoinAfterExit`),
  and one signal lets every waiter past (`SchedEvents.EventReleasesAll`,
  `SchedEvents.ReleasedInTurn`).
- **Bounded buffer.** Over all interleavings, no slot is overwritten before it is read or read before
  it is written (`BufferRuns.Safe`, `BufferRuns.NoOverwrite`, `BufferRuns.FetchesOldest`), and the
  k-th get returns what was passed to the k-th put (`BufferValues.GetsReturnPuts`); there is no
  deadlock and no overtaking among waiters (`BufferRuns.NoDeadlock`, `BufferRuns.NoOvertaking`).
- **Memory.** Frames are partitioned over every run (`VmmRuns.RunSound`, `VmmRuns.OnePlace`), the two
  levels refine a flat map (`VmmTables.PmapRefines`), `fork` copies into disjoint frames
  (`VmmRuns.ForkSpaceSpec`) and no space ever sees another one's writes (`VmmRuns.RunIsolates`).
- **References.** Every count is the number of holders over every run (`RefRuns.RunInv`), and objects
  are deleted once, when the last holder goes (`RefRuns.DeletedWhenLastGoes`,
  `RefRuns.BootRunInv`). A forked process finds its parent's table slot by slot, with handles of its
  own (`RefFork.ForkCopies`).
- **Text.** `strtol` inverts `fmtint` (`PrintParse.RoundTrip`); both are characterised part by part
  for all inputs (`PrintShape.FormatParts`, `PrintShape.ParseReads`); `tokenize` returns exactly the
  words (`ShellCode.Tokenize`).

## Where the code does less than one might expect

Each of these is stated with the exact condition under which the code does what is wanted.

- `OpenFile::readFully` (`kernel/fs.cc:110-121`) does not advance its offset between reads, so beyond
  the first piece it delivers that piece again (`FatRead.RepeatedIsWanted`). `File::readFully`
  (`kernel/fs.h:49-62`) is right.
- `OpenFile::write` checks nothing: it is sound exactly if the free blocks suffice and, when the file
  shrinks, the free chain is not empty; a write of nothing frees the file's own blocks unless
  there is no free block at all (`FatSafety.WriteVerdict`).
- An open file keeps the length it was made with. After a fitting write of `buf` through it, reading
  `n` bytes from the start gives `buf` exactly if `n` or the old length, whichever is less, is the
  length of `buf` (`FatDirectory.WriteReadOld`, from `FatDirectory.OldLengthReads`); after a write of
  600 bytes to a file of 5 it gives 5 (`FatDirectory.GrowReadOld`). Who closes the file and opens it
  again sees the new length exactly if no other handle and no directory was on the file, or the
  length is the same (`FatReopen.OpenFiles.WriteCloseReopenRead`).
- `malloc` computes too small a block exactly if `bytes + 3` wraps (`HeapRuns.IntsEnough`).
- `realloc` frees the old block even when the new one cannot be had, that is exactly if no free
  block is large enough (`HeapCode.FirstFitHeap.Realloc`). Its copy leaves the old payload exactly if
  the new size exceeds it, and then reads the footer and the next header
  (`HeapCode.ReallocLeavesPayload`, with an input in `HeapCode.ReallocReadsFooter`).
- With the zero flag, a precision above the number of digits and a larger width, `fmtint` writes
  fewer characters than the width (`PrintParse.Length`, `PrintParse.ZeroFlagTooShort`). Printing
  and parsing the least `long` relies on wrap-around, which C leaves undefined.
- `punmap` takes a frame from the pool exactly if the page has no table, and so was not mapped
  (`VmmTables.PunmapRefines`).
- The destructor of an address space gives back exactly the frames of the space, each once, if and
  only if memory ends at 4 MB or below, as it does at `kernel/kernel.cc:66`; beyond, frame 1024 is
  always freed once too often, because it is mapped to itself outside table 0
  (`VmmSelf.DestroyFreesOwn`).
- A semaphore or a file handle that `open` finds no slot for is never deleted, and a handle then
  keeps its open file; this happens exactly if all slots from 1 on are taken
  (`RefLeaks.LostExactlyWhenFull`), as n - 1 semaphores achieve in a table of n
  (`RefLeaks.FullIsReached`). The file that `execv` looked up is always lost in this way
  (`RefLeaks.ExecLosesHandle`).
- `mkfs` on an image without a data block leaves no sound split (`MkfsModel.ImageSplits`), and
  with 32 files or more it writes behind the image unless the disk is full before
  (`MkfsCode.Image.Build`).

## Model

| member | source | states |
|---|---|---|
| `HeapRuns.InitialValid` | kernel/heap.cc:15-21 | whatever the memory held, after init one free block of len - 4 words lies at index 2 between two taken blocks of two words, and the heap invariant holds |
| `HeapModel.UnlinkKeepsLinked` | kernel/heap.cc:87-101 | remove takes exactly one node off the doubly linked list and leaves a well-linked list of the others in order |
| `HeapModel.PushKeepsLinked` | kernel/heap.cc:103-112 | makeAvail puts exactly one node in front of the list |
| `HeapModel.BlocksDisjoint` | kernel/heap.cc:31-37 | two different blocks of a tiled array share no word |
| `HeapModel.JoinKeepsTiled` | kernel/heap.cc:183-199 | giving one header and footer to a run of whole blocks keeps the array tiled by blocks whose two tags agree |
| `HeapModel.SplitKeepsTiled` | kernel/heap.cc:148-152 | cutting a block in two keeps the array tiled |
| `HeapSteps.DropKeepsThreaded` | kernel/heap.cc:87-101 | after remove the list holds every free block but that one |
| `HeapSteps.InsertKeepsThreaded` | kernel/heap.cc:103-112 | after makeAvail of the one unlisted free block the list is complete again |
| `HeapSteps.CutKeepsThreaded` | kernel/heap.cc:148-152 | splitting keeps list and tiling in agreement |
| `HeapSteps.JoinKeepsThreaded` | kernel/heap.cc:188-199 | merging keeps list and tiling in agreement |
| `HeapSteps.TakeKeepsValid` | kernel/heap.cc:141-161 | malloc's successful branch keeps the whole heap invariant |
| `HeapSteps.ReleaseKeepsValid` | kernel/heap.cc:183-199 | free keeps the whole heap invariant, including that no two free blocks are neighbours |
| `HeapObjects.TakeObjects` | kernel/heap.cc:141-161 | malloc adds one object of at least the requested and at most three words more, and no word of another object changes |
| `HeapObjects.TakeFrame` | kernel/heap.cc:141-161 | a live block is untouched by an allocation and disjoint from the new one |
| `HeapObjects.ReleaseObjects` | kernel/heap.cc:170-201 | free removes one object and changes no word of the others |
| `HeapObjects.ReleaseFrame` | kernel/heap.cc:183-199 | a live block lies outside the span that free merges |
| `HeapObjects.StoreObjects` | user/heap.c:125-160 | a write inside a live payload is seen neither by the allocator nor by another object |
| `HeapRuns.IntsEnough` | kernel/heap.cc:132-133 | the computed block is large enough for the request exactly when bytes + 3 does not wrap at 2^32 |
| `HeapRuns.IntsLeast` | kernel/heap.cc:132-133 | and no word larger than needed: a block of n words is as large as the one computed exactly if n is at least four and its payload has room for the bytes |
| `HeapRuns.MallocRefines` | user/heap.c:125-160 | in bytes: malloc fails exactly if no free block has at least four words and room for the request between its tags; otherwise the first such block becomes a new object with at most three words too many, and no other object changes |
| `HeapRuns.SearchServes` | kernel/heap.cc:138-163 | the search for the computed size finds exactly the first free block that serves the bytes |
| `HeapRuns.StepRefines` | user/heap.c:125-190 | every allocator call is one step on the client's objects and nothing else |
| `HeapRuns.RunKeepsObject` | user/heap.c:125-190 | over any run, an object that is neither freed nor written keeps every word and is never handed out again |
| `HeapRuns.RunKeepsValid` | kernel/heap.cc:128-201 | the heap invariant holds in every state of every run of malloc and free |
| `HeapRuns.AllFreed` | user/heap.c:162-190 | once nothing is live, whatever the order of the frees, the heap is one free block of len - 4 words at index 2 |
| `HeapRuns.RunRestores` | user/heap.c:125-190 | after any run that ends with nothing live the whole space can be requested again |
| `HeapRuns.WalkMeetsHeaders` | kernel/heap.cc:27-37 | walking the array by block sizes meets exactly the block starts, and the sizes add up to len |
| `HeapBytes.PutByteAt` | user/heap.c:209-213 | writing one byte of an array of words changes that byte and no other |
| `HeapCode.FirstFitHeap.constructor` | kernel/heap.cc:15-21 | init on an array with arbitrary contents produces the initial heap |
| `HeapCode.FirstFitHeap.Sanity` | kernel/heap.cc:39-61 | a panic fires exactly when a nonzero index or its footer lies outside the array or the two tags differ; the index comes back |
| `HeapCode.FirstFitHeap.LeftOf` | kernel/heap.cc:63-65 | the index arithmetic on the footer finds the left neighbour |
| `HeapCode.FirstFitHeap.RightOf` | kernel/heap.cc:67-69 | the index arithmetic on the header finds the right neighbour |
| `HeapCode.FirstFitHeap.Remove` | kernel/heap.cc:87-101 | in place, exactly the named node leaves the list |
| `HeapCode.FirstFitHeap.MakeAvail` | kernel/heap.cc:103-112 | in place, both tags and the four link writes of a new list head |
| `HeapCode.FirstFitHeap.MakeTaken` | kernel/heap.cc:114-117 | in place, both tags negative |
| `HeapCode.FirstFitHeap.Malloc` | kernel/heap.cc:128-167 | takes the first block in list order that serves the bytes, with at most three words too many; null exactly if none serves, and then a panic exactly in the kernel; bytes + 3 beyond 2^32 asks for four words |
| `HeapCode.FirstFitHeap.Free` | kernel/heap.cc:170-201 | frees a taken block with merging on both sides; null and the array itself are ignored, a free block is refused |
| `HeapCode.FirstFitHeap.Coalesce` | kernel/heap.cc:183-199 | the two-sided merge in place equals the released heap |
| `HeapCode.FirstFitHeap.Realloc` | user/heap.c:192-217 | a successful call moves the first min(newSize, old payload) bytes to a new block that serves newSize snugly, and the rest up to min(newSize, 4 * size) are the bytes behind the old payload; on failure, exactly when no free block serves, the old block is freed all the same |
| `HeapCode.ReallocLeavesPayload` | user/heap.c:207-213 | the copy leaves the old payload exactly if the new size exceeds it; the words then read are the footer of the old block and the header of the next |
| `HeapCode.ReallocReadsFooter` | user/heap.c:207-213 | an input: after malloc(8) on a fresh heap, realloc to 12 bytes copies the footer, -4, as the last word |
| `FatModel.ChainUnique` | kernel/fs.cc:61-65 | the chain that the FAT leads to from a block is unique |
| `FatModel.GrowChains` | kernel/fs.h:109-113 | moving the first free block to the end of a file's chain yields the two chains it should |
| `FatModel.ShrinkChains` | kernel/fs.h:114-121 | cutting a file's chain and hanging the rest on the free chain yields the two chains it should |
| `FatModel.PartitionMoved` | kernel/fs.cc:71-108 | moving blocks between one file and the free chain keeps all chains disjoint, acyclic and together covering exactly the data blocks |
| `FatModel.LittleRoundTrip` | kernel/block.cc:32-35 | the length stored byte by byte is read back as the same number |
| `FatWrite.GrowStep` | kernel/fs.cc:77-81 | one iteration that needs a block, when there is one |
| `FatWrite.NoGrowStep` | kernel/fs.cc:77-81 | with the free chain empty the "new" block is block 0 and entry 0 links to itself |
| `FatWrite.WriteStep` | kernel/fs.cc:82-88 | one sector of the buffer reaches its place in the chain, the length with the first one |
| `FatWrite.WriteNowhere` | kernel/fs.cc:82-88 | with the free chain used up the data goes to sector 0 |
| `FatWrite.FinishGrown` | kernel/fs.cc:90-107 | a write that fits without surplus ends with the file's chain holding the buffer |
| `FatWrite.FinishShrunk` | kernel/fs.cc:90-107 | the surplus blocks join a free chain that is not empty |
| `FatSafety.WriteVerdict` | kernel/fs.cc:71-108 | for n > 0 the blocks are soundly split after the write, with ceil((n+8)/512) in the file, exactly when the free blocks suffice and, if the file shrinks, the free chain is not empty; for n = 0 exactly when there is no free block |
| `FatSafety.FinishedPartition` | kernel/fs.cc:71-108 | a sound write moves the partition from the old chain to the new one |
| `FatSafety.OverrunUnsound` | kernel/fs.cc:77-81 | running out of blocks leaves no sound split |
| `FatSafety.LeakedUnsound` | kernel/fs.h:114-121 | shrinking with an empty free chain leaks the surplus blocks |
| `FatSafety.EmptyWriteUnsound` | kernel/fs.cc:90-106 | writing nothing while free blocks exist puts the file's own blocks on the free chain |
| `FatSafety.OtherBytesKept` | kernel/fs.cc:71-108 | a file that is not written keeps its bytes and its stored length |
| `FatRuns.StepWritten` | kernel/fs.cc:71-108 | after a fitting write, stored length and content of the file are the buffer |
| `FatRuns.StepOther` | kernel/fs.cc:71-108 | and every other file reads as before |
| `FatRuns.RunKeepsPartition` | kernel/fs.cc:71-108 | over any sequence of fitting writes to any files the blocks stay partitioned, with the same files |
| `FatRuns.RunHolds` | kernel/fs.cc:71-108 | and every file holds the last buffer written to it, or what it held before |
| `FatRuns.ImageRun` | fat439/mkfs.c:143-158 | the same from an image on that mkfs has built: every file put into it holds its content until it is written, and then the last buffer |
| `FatRead.ReadPiece` | kernel/fs.cc:50-69 | one read delivers the bytes of the file from the offset to the end of the sector, the request or the file |
| `FatRead.RepeatedIsWanted` | kernel/fs.cc:110-121 | OpenFile::readFully, which does not advance its offset, is right for every content exactly when one read serves the whole request |
| `FatCode.Fat439.constructor` | kernel/fs.cc:210-223 | mounting reads the FAT and leaves the device alone |
| `FatCode.Fat439.FindFreeBlock` | kernel/fs.h:109-113 | the head of the free chain is taken off |
| `FatCode.Fat439.AddToAvail` | kernel/fs.h:114-121 | the walk ends at the last free block, and the block is hung behind it |
| `FatCode.Fat439.DevWrite` | kernel/block.cc:25-50 | a sector gets the data and, if it is the first, the length; its remainder is arbitrary |
| `FatCode.OpenFile.constructor` | kernel/fs.cc:39-43 | the length is read once, when the file is opened |
| `FatCode.OpenFile.Read` | kernel/fs.cc:50-69 | the walk along the FAT reaches the block of the offset, and the piece read is the file's |
| `FatCode.OpenFile.Write` | kernel/fs.cc:71-108 | the loop in place keeps the partition exactly under the condition of WriteVerdict, and then the file holds the buffer |
| `FatCode.OpenFile.ReadFully` | kernel/fs.cc:110-121 | the result is the bytes of the first piece over and over |
| `FatDirectory.EntryReadRight` | kernel/fs.cc:179-182 | reading a 16-byte entry with readFully is right for every entry that lies in one sector |
| `FatDirectory.FindFirst` | kernel/fs.cc:179-190 | the search answers with the first entry of that name |
| `FatDirectory.FindAnswers` | kernel/fs.cc:169-193 | for names that occur and names that do not: the answer is the start of the first entry that names the file, or 0 and no entry does |
| `FatDirectory.Directory.Compare` | kernel/fs.cc:182-189 | the comparison of an entry with a C string succeeds exactly for equal strings of at most eleven characters |
| `FatDirectory.Directory.Lookup` | kernel/fs.cc:169-193 | the first block of the first entry of that name, the start for "."; 0 if no entry has the name |
| `FatDirectory.FileHandle.Read` | kernel/fs.cc:146-150 | the position advances by what was read |
| `FatDirectory.FileHandle.ReadFully` | kernel/fs.h:49-62 | File::readFully delivers all the wanted bytes in order |
| `FatDirectory.FileHandle.ForkMe` | kernel/fs.cc:136-142 | the copy for a forked process is on the same open file, at the same position |
| `FatDirectory.WriteReadsBack` | kernel/fs.cc:71-108 | after a write that fits, the stored length and bytes are those of the buffer |
| `FatDirectory.WriteReopenRead` | kernel/fs.cc:39-121 | a write that fits, read through an open file made after it, gives the buffer back |
| `FatDirectory.OldLengthReads` | kernel/fs.cc:50-69 | with any cached length, what is read from the start has the lesser of request and cached length, agrees with the buffer as far as both go, and is the buffer exactly if the lengths agree |
| `FatDirectory.WriteReadOld` | kernel/fs.cc:71-108 | for every fitting write, a handle that was there before reads the buffer exactly if request and cached length allow just its length |
| `FatDirectory.GrowReadOld` | kernel/fs.cc:39-43 | an input: a file of 5 bytes grows to 600 and the handle opened before reads 5 |
| `FatReopen.CloseHandle` | kernel/fs.cc:239-244 | closing a handle takes one holder from its file; the open file stays exactly if another handle or a directory is on it |
| `FatReopen.OpenFiles.Obtain` | kernel/fs.cc:226-236 | openFile hands out the object there is, with its old length, or a new one with the stored length |
| `FatReopen.OpenFiles.OpenCall` | kernel/fs.cc:195-200 | open of a file in place: openFiles, counts and table move together |
| `FatReopen.OpenFiles.CloseCall` | kernel/fs.cc:239-244 | close in place: openFiles forgets the file exactly with its last holder |
| `FatReopen.OpenFiles.WriteCloseReopenRead` | kernel/fs.cc:226-244 | write, close, open and read by one process: the length is the new one exactly if nobody else held the file or the length is the same; otherwise it is the old one |
| `FatImage.LookupFinds` | kernel/fs.cc:169-193 | in the root directory built by mkfs, looking up a name of at most eleven characters finds the file of that name |
| `FatImage.LookupMisses` | kernel/fs.cc:169-193 | in that directory, a name that was not put into the image, or one of twelve characters or more, is not found |
| `FatImage.ReadFromImage` | fat439/mkfs.c:91-163 | mounting what mkfs built, looking up and reading returns each input file's bytes |
| `FatImage.MissInImage` | kernel/fs.cc:195-200 | mounting what mkfs built and looking up such a name gives 0 |
| `MkfsModel.ImageBlocksEnough` | fat439/mkfs.c:126-141 | the FAT fits in front of the first data block |
| `MkfsModel.EmptyImage` | fat439/mkfs.c:135-141 | a zeroed image with its free chain is a partition without files |
| `MkfsModel.ImageSplits` | fat439/mkfs.c:128-141 | a zeroed image with this FAT has a sound split exactly if there is a data block |
| `MkfsModel.NewFile` | fat439/mkfs.c:53-60 | getBlock starts a file of one block |
| `MkfsModel.ExtendFile` | fat439/mkfs.c:63-69 | getBlock lengthens exactly one file |
| `MkfsModel.PlaceNext` | fat439/mkfs.c:70-83 | a read of any size puts the next bytes behind those already stored |
| `MkfsModel.DoneGrowing` | fat439/mkfs.c:74-78 | at end of file the length is stored, and the chain has (size+8)/512 + 1 blocks |
| `MkfsModel.EntryNames` | fat439/mkfs.c:153-157 | among entries with distinct names the twelve-byte comparison picks the right one |
| `MkfsModel.BuiltKept` | fat439/mkfs.c:151-158 | adding a file disturbs none of the earlier ones |
| `MkfsCode.Image.constructor` | fat439/mkfs.c:128-141 | every data block is on the free chain; with no data block no chain makes a sound split |
| `MkfsCode.Image.GetBlock` | fat439/mkfs.c:27-36 | the head of the free chain, or "disk is full" exactly when it is empty |
| `MkfsCode.Image.OneFile` | fat439/mkfs.c:46-89 | stores the whole content under any pattern of short reads, and fails exactly when the free blocks do not suffice |
| `MkfsCode.Image.MakeRoot` | fat439/mkfs.c:143-148 | the root directory is a one-block file, in what was the first free block, for any number of names |
| `MkfsCode.Image.Build` | fat439/mkfs.c:143-158 | the image is finished exactly when root and files fit and there are at most 31, and then every file is in it under its name, with its type word and the root's; otherwise the disk is full, or the entry of the 32nd lies behind the root block, exactly as the sizes tell |
| `SchedSteps.DisablesBalance` | kernel/process.cc:465-488 | after n calls of disable and m of enable interrupts are on exactly if m has caught up with the count, and the panic of enable is reached exactly if m exceeds it |
| `SchedSteps.IrqPair` | kernel/process.cc:490-514 | startIrq and endIrq undo each other exactly for a process without open brackets; the exact conditions of their three panics |
| `SchedSteps.CloseInv` | kernel/process.cc:473-488 | closing the innermost bracket panics nowhere and switches interrupts on exactly when it was the outermost |
| `SchedSteps.UnwindInv` | kernel/process.cc:389-390 | a dispatched process leaves the calls it was suspended in and reaches a stable moment |
| `SchedSteps.LeaveInv` | kernel/process.cc:369-370 | the running process moves to one queue and leaves the processor |
| `SchedSteps.DequeueInv` | kernel/semaphore.cc:32-33 | the head leaves a queue and is in no place |
| `SchedSteps.WakeInv` | kernel/process.cc:274-281 | makeReady keeps the invariant and appends the process to the ready queue; the idle process becomes ready and no queue changes |
| `SchedSteps.RunInv` | kernel/process.cc:337-358 | dispatch gives the processor to one process |
| `SchedCalls.PickStable` | kernel/process.cc:377-390 | the second half of yield leads to a stable moment |
| `SchedCalls.YieldToStable` | kernel/process.cc:360-391 | yield on a queue, or on none, leads from a bracket of the caller to a stable moment |
| `SchedCalls.DownStable` | kernel/semaphore.cc:14-25 | down leads to a stable moment |
| `SchedCalls.UpStable` | kernel/semaphore.cc:27-36 | up leads to a stable moment |
| `SchedCalls.AddTimerInv` | kernel/process.cc:413-431 | the timer list stays strictly increasing with targets in the future |
| `SchedCalls.SleepStable` | kernel/process.cc:408-436 | sleepUntil leads to a stable moment |
| `SchedCalls.WakeAllInv` | kernel/process.cc:455-458 | all sleepers of the due timer move to the ready queue in order |
| `SchedCalls.TickBodyInv` | kernel/process.cc:443-463 | tick keeps the invariant and the running process |
| `SchedCalls.EnterIrqInv` | kernel/process.cc:490-502 | an interrupt finds no bracket open, so startIrq panics nowhere |
| `SchedCalls.IrqStable` | kernel/pic.cc:91-105 | the whole bracket of pic_irq leads to a stable moment |
| `SchedCalls.ReapInv` | kernel/process.cc:68-79 | the reaper removes exactly the processes on its queue |
| `SchedCalls.DieStable` | kernel/process.cc:325-330 | the end of exit leads to a stable moment of another process |
| `SchedRuns.StepStable` | kernel/process.cc:316-514 | every call and every interrupt leads from a stable moment to a stable moment |
| `SchedRuns.RunStable` | kernel/process.cc:274-514 | from one stable state on, placement, states, counts and timers are right in every state of every run, and no panic of enable, startIrq or endIrq is reached |
| `SchedRuns.BootRunStable` | kernel/kernel.cc:87-98 | the same for every run from boot |
| `SchedTheorems.PlacedOnce` | kernel/process.cc:274-391 | a started process is current, or once on one queue, or reaped, with the state that goes with the place; the idle process is never queued |
| `SchedTheorems.CountsMatch` | kernel/process.cc:465-514 | interrupts are on exactly when the running process's count is 0, each count is the number of open brackets, and the four panics did not happen |
| `SchedTheorems.YieldShape` | kernel/process.cc:360-391 | yield appends the caller to its queue and runs the head of the ready queue, or the idle process |
| `SchedTheorems.DownShape` | kernel/semaphore.cc:14-25 | down takes a token or appends the caller to the waiters, nothing else changes |
| `SchedTheorems.UpShape` | kernel/semaphore.cc:27-36 | up hands the token to the first waiter or adds one |
| `SchedTheorems.SleepShape` | kernel/process.cc:408-436 | sleepUntil appends the caller to the queue of its target, or returns |
| `SchedTheorems.TickShape` | kernel/process.cc:443-463 | tick empties the due timer's queue into the ready queue, in order |
| `SchedTheorems.StartShape` | kernel/process.cc:151-153 | a started process is the last of the ready queue, its done event is open to nobody, and nothing else changes |
| `SchedTheorems.NewSemShape` | kernel/semaphore.cc:6-9 | a new semaphore has the given count and no waiters, and nothing else changes |
| `SchedTheorems.StepReady` | kernel/process.cc:377-389 | a dispatch runs the head of the ready queue and moves the others up by one; any other step only appends |
| `SchedTheorems.RunsInTurn` | kernel/process.cc:377-389 | the process at ready position n runs by the (n+1)-th later dispatch |
| `SchedTheorems.StartedRuns` | kernel/process.cc:377-389 | a started process runs, at the latest by as many later dispatches as there were processes ready, and one |
| `SchedSync.StepBalance` | kernel/semaphore.cc:14-36 | each step changes count minus waiters by its ups minus its downs |
| `SchedSync.SemaphoreConservation` | kernel/semaphore.cc:14-36 | initial count + ups = count + granted downs over any run, and a positive count means no waiters |
| `SchedSync.CreatedConservation` | kernel/semaphore.cc:6-36 | the same for a semaphore made during the run, from the count it is made with |
| `SchedMutex.HoldsStep` | kernel/semaphore.cc:14-36 | a process comes to hold a semaphore by a down that finds a token or by leaving the head of its queue, and gives it up by an up, and in no other way |
| `SchedMutex.RunFreeOrHeld` | kernel/semaphore.h:19-24 | over any run in which only holders unlock, a lock is free and nobody holds it, or it is held by exactly one process once |
| `SchedMutex.OneHolder` | kernel/semaphore.h:19-24 | two processes that hold a mutex are the same one, the mutex is free exactly if nobody holds it, and whoever waits for it waits for a holder |
| `SchedTimers.StepSleepers` | kernel/process.cc:451-459 | only the tick that reaches t wakes the sleepers of t, and it wakes all of them |
| `SchedTimers.AsleepUntilTarget` | kernel/process.cc:408-463 | until the clock reaches t its sleepers sleep, in the order in which they came |
| `SchedTimers.WokenOnTime` | kernel/process.cc:443-463 | checking only for equality, the tick from t - 1 to t makes every sleeper of t ready, in order |
| `SchedTimers.SleepForTarget` | kernel/process.cc:438-440 | sleepFor(m) aims between (m-1)*hz/1000 - 1 and m*hz/1000 ticks ahead |
| `SchedTimers.StepClock` | kernel/pit.cc:38-41 | only ticks move the clock, one at a time |
| `SchedJoin.StepJoin` | kernel/semaphore.h:26-37 | every step keeps the invariant of every done event |
| `SchedJoin.JoinAfterExit` | kernel/syscall.cc:61-70 | in every run a process past its wait for q reads q's exit code only after q has set it |
| `SchedJoin.JoinReadsCode` | kernel/process.cc:316-323 | after q calls exit(code), in every later state of the run q's exit code is that code |
| `SchedJoin.BootJoin` | kernel/kernel.cc:87-98 | the invariant of every done event holds after boot |
| `SchedNotes.QuietNotes` | kernel/process.cc:274-514 | no call or interrupt but those of Event and exit begins or ends a wait or an exit of any process |
| `SchedNotes.WaitNotes` | kernel/semaphore.h:30-33 | the down of a wait begins exactly the caller's wait, whether it blocks or not |
| `SchedNotes.SignalNotes` | kernel/semaphore.h:34-36 | the signal of exit changes nobody's waits |
| `SchedEvents.StepQueue` | kernel/semaphore.cc:14-36 | over every step, an up takes the head off a semaphore's queue, a down without a token appends its caller, nothing else changes it |
| `SchedEvents.StepEvent` | kernel/semaphore.h:26-37 | every step keeps the account of every event: count less queue plus waits begun equals signals |
| `SchedEvents.BootEvent` | kernel/kernel.cc:87-98 | the account holds after boot |
| `SchedEvents.RunEvent` | kernel/semaphore.h:26-37 | and so in every state of every run |
| `SchedEvents.OneToken` | kernel/semaphore.h:30-36 | count and processes past the down of a wait add up to 1 from the signal on, and to 0 before |
| `SchedEvents.WaitersHaveHolder` | kernel/semaphore.h:30-36 | after the signal, as long as somebody is queued some process is past the down, its up outstanding |
| `SchedEvents.LaterWaitPasses` | kernel/semaphore.h:30-36 | after the signal, once nobody is past the down nobody is queued, and a later wait does not block |
| `SchedEvents.SignalStays` | kernel/process.cc:323 | a process that has signalled its end stays so |
| `SchedEvents.NobodyBeforeSignal` | kernel/semaphore.h:30-36 | from boot on, before q's signal no process is past the down of a wait for q |
| `SchedEvents.EventReleasesAll` | kernel/semaphore.h:30-36 | in any state of any run from boot in which q has signalled: at most one process is past the down; as long as some are queued one is; once none is, nobody is queued and later waits pass |
| `SchedEvents.ReleasedInTurn` | kernel/semaphore.cc:27-36 | over any run from boot the waiter at position m is let past by the (m+1)-th later up on the event |
| `SchedCode.Kernel.DoDisable` | kernel/process.cc:465-471 | disable in place |
| `SchedCode.Kernel.DoEnable` | kernel/process.cc:473-488 | enable in place, with its panic |
| `SchedCode.Kernel.DoStartIrq` | kernel/process.cc:490-502 | startIrq in place, with its two panics |
| `SchedCode.Kernel.DoEndIrq` | kernel/process.cc:504-514 | endIrq in place, with its panic |
| `SchedCode.Kernel.MakeReady` | kernel/process.cc:274-281 | makeReady in place, for the idle process too |
| `SchedCode.Kernel.CheckReaper` | kernel/process.cc:68-79 | the loop empties the reaper queue, one bracket a turn |
| `SchedCode.Kernel.Dispatch` | kernel/process.cc:337-358 | dispatch up to the next stable moment |
| `SchedCode.Kernel.YieldOn` | kernel/process.cc:360-391 | yield in place, for a queue and for none |
| `SchedCode.Kernel.SemDown` | kernel/semaphore.cc:14-25 | down in place, from stable to stable |
| `SchedCode.Kernel.SemUp` | kernel/semaphore.cc:27-36 | up in place, from stable to stable |
| `SchedCode.Kernel.Tick` | kernel/process.cc:443-463 | handler and tick in place |
| `SchedCode.Kernel.PicIrq` | kernel/pic.cc:91-105 | the bracket of an interrupt in place, from stable to stable |
| `SchedCode.Kernel.FindTimer` | kernel/process.cc:413-425 | the walk finds the place of a target in the timer list, and whether it is taken |
| `SchedCode.Kernel.SleepUntilMillis` | kernel/process.cc:408-436 | sleepUntil in place, from stable to stable |
| `SchedCode.Kernel.ExitTail` | kernel/process.cc:325-330 | the end of exit in place |
| `QueueCode.SimpleQueue.AddTail` | kernel/queue.h:24-36 | the links of a doubly linked list after appending, as a sequence with one more element |
| `QueueCode.SimpleQueue.RemoveHead` | kernel/queue.h:40-51 | the links after removing the first node, whose value is returned |
| `QueueCode.SimpleQueue.IsEmpty` | kernel/queue.h:37-39 | true exactly for the empty sequence |
| `BufferSafety.InitialInv` | kernel/bb.h:19-20 | a new buffer of n > 0 slots satisfies the invariant |
| `BufferSafety.DownMutex` | kernel/bb.h:24 | taking the mutex keeps mutual exclusion |
| `BufferSafety.Unlock` | kernel/bb.h:27 | handing the mutex on keeps mutual exclusion |
| `BufferSafety.GiveBack` | kernel/bb.h:28 | a token given back reaches one waiter or the count, and the sum of tokens stays n |
| `BufferRuns.Store` | kernel/bb.h:25 | the store goes to the slot of the next put, which holds no value that is still to be fetched |
| `BufferRuns.WrapTail` | kernel/bb.h:26 | after the wrap tail is the number of puts modulo n |
| `BufferRuns.Fetch` | kernel/bb.h:35 | the step of the fetch keeps the invariant: what is recorded as fetched is the oldest value not fetched before |
| `BufferRuns.WrapHead` | kernel/bb.h:36 | after the wrap head is the number of gets modulo n |
| `BufferRuns.StepInv` | kernel/bb.h:22-40 | whichever thread moves next, the invariant survives |
| `BufferRuns.InBounds` | kernel/bb.h:25-36 | the indices used by put and get are inside the array |
| `BufferRuns.NoOverwrite` | kernel/bb.h:22-26 | a store never hits a slot whose value has not been fetched |
| `BufferRuns.FetchesOldest` | kernel/bb.h:32-36 | a fetch never reads a slot that has not been stored |
| `BufferRuns.Safe` | kernel/bb.h:19-40 | over any interleaving of any number of threads, occupancy stays in 0..n, the values fetched are a prefix of the values stored, and at most one thread is in a critical section |
| `BufferRuns.NoDeadlock` | kernel/bb.h:22-40 | if no thread can go on, the mutex is free and the blocked threads are all putters at a full buffer or all getters at an empty one |
| `BufferRuns.LineMoves` | kernel/semaphore.cc:14-36 | a step leaves the waiters of each semaphore alone, serves their first, or puts its thread behind them |
| `BufferRuns.NoOvertaking` | kernel/semaphore.cc:14-36 | over any run, a waiting thread has nobody new in front of it until it has been served |
| `BufferRuns.AtRest` | kernel/bb.h:15-17 | with nobody inside, the counts of the semaphores are the free and the full slots |
| `BufferValues.NextFits` | kernel/bb.h:22-40 | whichever thread moves, a putter before its store still has its argument, and a getter past its fetch has the element that its fetch appended, up to its return |
| `BufferValues.ReturnsSent` | kernel/bb.h:31-40 | the value that get returns was passed to the put of the same turn |
| `BufferValues.GetsReturnPuts` | kernel/bb.h:19-40 | over any interleaving from a new buffer, the k-th get in the order of the critical sections returns what was passed to the k-th put; once no get is on its way back, the values returned are a prefix of the values passed to put |
| `BufferCode.BB.constructor` | kernel/bb.h:19-20 | the object as constructed, with nothing asked for, sent or received |
| `BufferCode.BB.Advance` | kernel/bb.h:22-40 | any statement of put or get by any thread, in place, is the model's step and stays inside the array; the last one of get returns what was passed to the put of its turn |
| `VmmModel.AllocInv` | kernel/vmm.cc:23-42 | alloc hands out the last freed frame or the first untouched one, cleared; it panics exactly when there is neither |
| `VmmModel.FreeInv` | kernel/vmm.cc:44-52 | a frame nobody uses becomes the head of the free list, which is threaded through the frames |
| `VmmModel.SpaceKept` | kernel/vmm.cc:104-126 | an operation that keeps a space's frames keeps its whole mapping and its bytes |
| `VmmTables.TablesApart` | kernel/vmm.cc:104-111 | directories and tables never share a frame |
| `VmmTables.NeedTableInv` | kernel/vmm.cc:104-111 | getPTE changes no mapping, and panics exactly when a table is missing and no frame is left |
| `VmmTables.PmapRefines` | kernel/vmm.cc:120-126 | through two levels, pmap is an update of the flat map at one page, for any page, frame and permissions |
| `VmmTables.PunmapRefines` | kernel/vmm.cc:113-118 | through two levels, punmap removes one page; the pool loses a frame exactly if the table was missing, when nothing was mapped, and is unchanged otherwise |
| `VmmSpaces.CreateSpec` | kernel/vmm.cc:55-64 | a new space takes two frames and maps every page but 0 to itself; it fails exactly when fewer than two frames are left |
| `VmmSpaces.PageContains` | kernel/vmm.cc:105-111 | the two indices computed from any 32-bit address are those of the page that contains it, and of no other |
| `VmmSpaces.FaultSpec` | kernel/vmm.cc:134-146 | a fault in the upper half maps a cleared frame of its own to the page that contains the address; it fails exactly when the frames do not suffice |
| `VmmSpaces.StoreSpec` | kernel/vmm.cc:120-126 | a user's store changes that page of that space and nothing any other space sees |
| `VmmFork.ForkSpec` | kernel/vmm.cc:148-166 | fork fails exactly when the frames do not suffice for the parent's upper pages and tables; else every one of them is copied to a frame of the child's own |
| `VmmExec.ExecSpec` | kernel/vmm.cc:168-186 | the upper half is unmapped, exactly its frames are free, the lower half and the other spaces are as before |
| `VmmDestroy.DestroySpec` | kernel/vmm.cc:66-84 | exactly the directory, the tables and the pages of the space become free; no frame that is mapped to itself does |
| `VmmRuns.SomePlace` | kernel/vmm.cc:10-84 | every frame of the pool is untouched, free, a directory, a table or a page |
| `VmmRuns.OnePlace` | kernel/vmm.cc:10-84 | and in only one of these places |
| `VmmRuns.ForkSpaceSpec` | kernel/child.cc:5-7 | parent and child map the same upper pages with equal bytes and permissions in different frames, and the child's lower half is the kernel's |
| `VmmRuns.OpAchieves` | kernel/vmm.cc:55-205 | every call of a run that does not panic achieves its purpose: creation, fault, fork, exec, destruction, store |
| `VmmRuns.OpSound` | kernel/vmm.cc:55-186 | every operation keeps the partition of the frames |
| `VmmRuns.FreshSound` | kernel/vmm.cc:14-17 | after init the partition holds |
| `VmmRuns.RunSound` | kernel/vmm.cc:14-186 | over any run of create, fault, fork, exec, destroy and stores, up to a panic, the frames stay partitioned |
| `VmmRuns.RunIsolates` | kernel/vmm.cc:134-186 | whatever other processes do, a space keeps its mapping and its bytes |
| `VmmSelf.PoolIsChain` | kernel/vmm.cc:14-52 | the pools of the runs are among those the next two rows speak of |
| `VmmSelf.CreateAny` | kernel/vmm.cc:55-64 | for a memory of any size the constructor takes a frame for the directory and one per started 4 MB, fails exactly if there are fewer, and leaves every page but 0 mapped to itself |
| `VmmSelf.DestroyFreesOwn` | kernel/vmm.cc:66-84 | the destructor of such a space frees exactly the frames of the space, each once, if and only if memory ends at 4 MB or below; beyond, frame 1024 and all others whose number 1024 does not divide are freed once more than they should be |
| `VmmCode.PhysMem.constructor` | kernel/vmm.cc:14-17 | init |
| `VmmCode.PhysMem.Alloc` | kernel/vmm.cc:23-42 | alloc in place |
| `VmmCode.PhysMem.Free` | kernel/vmm.cc:44-52 | free in place |
| `VmmCode.AddressSpace.constructor` | kernel/vmm.cc:55-64 | the constructor's loop is the specified creation |
| `VmmCode.AddressSpace.Pmap` | kernel/vmm.cc:120-126 | in place, the page that contains the address changes in the flat map, and no other |
| `VmmCode.AddressSpace.Punmap` | kernel/vmm.cc:113-118 | in place, the page that contains the address goes from the flat map, and no other |
| `VmmCode.AddressSpace.HandlePageFault` | kernel/vmm.cc:134-146 | kill exactly below 0x1000, panic from there to 0x80000000, and beyond the page that contains the address is mapped to a cleared frame of its own |
| `VmmCode.AddressSpace.Fork` | kernel/vmm.cc:148-166 | the nested loops in place are the specified copy |
| `VmmCode.AddressSpace.Exec` | kernel/vmm.cc:168-186 | the nested loops in place are the specified clearing |
| `VmmCode.AddressSpace.Destroy` | kernel/vmm.cc:66-84 | the nested loops in place are the specified destruction, each table read before it is freed |
| `RefSteps.UnrefOff` | kernel/resource.h:23-32 | dropping a reference deletes the object exactly when it was the last, and with it a handle's open file or a process's table |
| `RefSteps.AddRefOff` | kernel/resource.h:17-22 | taking a reference adds one to one count |
| `RefSteps.MakeHandleOff` | kernel/fs.cc:226-236 | a new handle is one more holder of its open file, which is made if there is none |
| `RefRuns.OpenInv` | kernel/table.cc:19-32 | open stores one reference in the first free slot from 1 on |
| `RefRuns.ClearInv` | kernel/table.cc:34-43 | clearing a slot drops exactly its reference |
| `RefRuns.CloseAllInv` | kernel/table.cc:45-52 | closeAll empties the table and keeps every count right |
| `RefRuns.HandleHeldOnce` | kernel/fs.cc:136-142 | a live handle is in exactly one slot, so the count that forkMe copies is 1 |
| `RefRuns.ForkSlotsInv` | kernel/table.cc:55-65 | forkMe of a table keeps every count right |
| `RefRuns.ForkInv` | kernel/child.cc:5-7 | fork keeps every count right |
| `RefFork.SlotsForked` | kernel/table.cc:55-65 | slot by slot: null exactly if the parent's is; the same semaphore or process with one more reference for each slot; a fresh live handle on the same file, different for different slots |
| `RefFork.ForkCopies` | kernel/table.cc:55-65 | fork as a whole: those slots, a process with one reference for its slot and one of its own, and a parent's table that differs only in the slot that takes the child |
| `RefFork.ForkCall` | kernel/child.cc:5-7 | the same for the call in a run |
| `RefFork.OpenTakes` | kernel/table.cc:19-32 | open answers the first free slot from 1 on, which then holds the object with one more reference, or -1003 exactly if there is none |
| `RefFork.OpenCallTakes` | kernel/table.cc:19-32 | the same for the calls that make a semaphore or open a file |
| `RefRuns.CloseAnswers` | kernel/table.cc:34-43 | close answers 0 exactly for a slot in use, which is then empty, and -1002 otherwise, and then nothing changes |
| `RefFork.CloseCallClears` | kernel/table.cc:34-43 | the call empties that slot of the caller's table and no other |
| `RefFork.SpawnMakes` | kernel/process.cc:131-138 | a new process has one reference and an empty table of its own |
| `RefFork.ExecEmpties` | kernel/process.cc:225-226 | exec empties the caller's table and leaves the others' alone |
| `RefFork.ExitEmpties` | kernel/process.cc:316-327 | so does exit, and only the caller has exited |
| `RefFork.ReapAndDirectory` | kernel/process.cc:68-79 | the reaper's unref deletes the process exactly if no slot names it; a directory is one more holder of its file |
| `RefRuns.ExitInv` | kernel/process.cc:316-327 | exit leaves the process without references |
| `RefRuns.ReapInv` | kernel/process.cc:68-79 | the reaper's unref keeps every count right |
| `RefRuns.RunInv` | kernel/resource.h:15-49 | over any run of spawn, open, close, fork, exec, exit and reap, every count is the number of its holders; exec takes a handle on its program that nobody releases |
| `RefRuns.BootRunInv` | kernel/resource.h:15-49 | from the start of the system on, in every state of every run, nothing is deleted twice and no slot names a deleted object |
| `RefLeaks.StaysLost` | kernel/table.cc:19-33 | an object that nobody has ever held is not touched by any run |
| `RefLeaks.LostExactlyWhenFull` | kernel/table.cc:19-33 | a new semaphore or handle is never deleted in any later state, and the open file of a handle stays, if and only if all slots from 1 on are taken before the call; otherwise closing its slot deletes it |
| `RefLeaks.FullIsReached` | kernel/process.cc:132 | n - 1 semaphores fill a new table of n slots |
| `RefLeaks.ExecLosesHandle` | kernel/process.cc:182 | the handle that execv looks up is never deleted and its open file stays, over any later run |
| `RefRuns.NoDangling` | kernel/table.cc:67-73 | no table slot names a deleted object |
| `RefRuns.DeletedWhenLastGoes` | kernel/resource.h:23-32 | an object is deleted at most once, and has been exactly when no slot names it any more and, for a process, it is reaped |
| `RefRuns.OpenWhileHeld` | kernel/fs.cc:226-244 | openFiles[start] is null exactly when no live handle and no directory holds it, and its count is their number |
| `RefRuns.TableGoesWithProcess` | kernel/process.cc:140-149 | the table of a process is deleted with it, and is empty then |
| `RefRuns.OpenThenClose` | kernel/table.cc:19-43 | opening a new object and closing its slot restores tables and counts, and deletes the object |
| `RefCode.Resources.Reference` | kernel/resource.h:17-22 | ref in place |
| `RefCode.Resources.Unreference` | kernel/resource.h:23-32 | unref in place, with the destructor's effects |
| `RefCode.Resources.CloseOpenFile` | kernel/fs.cc:239-244 | closeFile in place |
| `RefCode.Resources.TableOpen` | kernel/table.cc:19-32 | the loop finds the first free slot from 1 on, or fails |
| `RefCode.Resources.TableClose` | kernel/table.cc:34-43 | close in place, with its two error cases |
| `RefCode.Resources.TableCloseAll` | kernel/table.cc:45-52 | the loop of closeAll in place |
| `RefCode.Resources.TableFork` | kernel/table.cc:55-65 | the loop of forkMe in place: slot by slot the new table has the same objects, and handles of its own on the same files |
| `RefCode.Resources.NewFile` | kernel/fs.cc:226-236 | openFile and the new handle in place |
| `RefCode.Resources.ForkProcess` | kernel/syscall.cc:27-39 | fork in place: the child's table is the parent's slot by slot, and the parent's changes only in the slot that takes the child |
| `RefCode.Resources.ExitProcess` | kernel/process.cc:316-327 | exit in place, as far as references go |
| `RefCode.Resources.ReapProcess` | kernel/process.cc:68-79 | the process object goes exactly when no slot names it |
| `PrintParse.DigitsRead` | kernel/snprintf.cc:432-439 | the digits produced have the value of the number in their base |
| `PrintParse.AccumulateFold` | kernel/string.cc:233-248 | the digit loop reads a text of digits up to the first other character |
| `PrintParse.ParseNumber` | kernel/string.cc:224-248 | padding zeros do not change the value, and no printed number looks like a prefix of another base |
| `PrintParse.RoundTrip` | kernel/string.cc:209-253 | strtol of what fmtint wrote is the value, for every long, width, precision and flags, in base 8, 10 and 16 |
| `PrintShape.DigitCharacters` | kernel/string.cc:236-243 | digits are 0 to 9 and the letters in either case, with values 0 to 35, and nothing else |
| `PrintShape.ParseReads` | kernel/string.cc:209-253 | for every text and base: blanks, a sign, a prefix of the base, digits as long as they last; the value is that of the digits with the sign in 32 bits, and the end is where the rest begins |
| `PrintParse.Length` | kernel/snprintf.cc:441-452 | the text has max(width, sign + max(precision, digits)) characters exactly unless the zero flag meets a precision above the digits and a width beyond sign and precision |
| `PrintShape.DigitsNumeral` | kernel/snprintf.cc:432-439 | the digits are the number without a leading zero, with letters in the wanted case |
| `PrintShape.FormatParts` | kernel/snprintf.cc:400-488 | for every input: spaces, sign, zeros, digits, spaces, each exactly as flags, width and precision ask for |
| `PrintParse.ZeroFlagTooShort` | kernel/snprintf.cc:445-449 | an instance where it is shorter |
| `PrintCode.Convert` | kernel/snprintf.cc:430-439 | the digit loop leaves the digits in reverse and never fills its buffer |
| `PrintCode.FmtInt` | kernel/snprintf.cc:400-488 | the counters and loops append exactly the specified text to the stream |
| `PrintCode.Strtol` | kernel/string.cc:208-253 | the pointer loops compute the specified value and end |
| `PrintCode.PrintAndRead` | kernel/snprintf.cc:400-488 | printing and reading back returns the value |
| `ShellText.WordsJoin` | user/libstr.c:70-111 | cutting a joined text gives back its words |
| `ShellText.TrimmedWords` | user/libstr.c:21-68 | trimming keeps the words |
| `ShellText.TrimTwice` | user/libstr.c:21-68 | trimming is idempotent |
| `ShellText.UntabWords` | user/libstr.c:29-34 | replacing tabs keeps the words |
| `ShellText.TrailingBlanks` | user/libstr.c:38-40 | cutting spaces behind keeps the words |
| `ShellText.SqueezeTrimmed` | user/libstr.c:48-65 | dropping spaces after spaces leaves the words with single spaces |
| `ShellCode.Compact` | user/libstr.c:48-65 | the compaction in place, which looks back into the buffer it writes, drops exactly the spaces after spaces |
| `ShellCode.Ends` | user/libstr.c:35-42 | the two scans find the first and the last character that is no space |
| `ShellCode.TrimSpace` | user/libstr.c:21-68 | the words joined by single spaces |
| `ShellCode.NextToken` | user/libstr.c:88-100 | one token is copied and the position moves behind the space after it |
| `ShellCode.Tokenize` | user/libstr.c:70-111 | exactly the words of the line, argc in number; nothing, and argc untouched, for a line without words |

## Left out

- HeapCode.FirstFitHeap.Realloc: for the pointer that `malloc(0)` returned and a size above 0 the code reads the word in front of the array, which is not modelled.
- HeapCode.FirstFitHeap.Free: a double free in the kernel is a panic; that it returns with interrupts off (`kernel/heap.cc:178-181`) is not modelled, and neither is `disable`/`enable` around the allocator.
- FatCode.OpenFile.Write: two processes writing at once are not modelled, since the code takes no lock; the two loops at `kernel/fs.cc:92-102` have no effect and are omitted.
- FatCode.Fat439.DevWrite: the type word is not claimed: `mkfs` stores 1 for a file and 2 for the root directory (the comment at `kernel/fs.h:24` has it the other way round), and a write stores its 1 in the last byte instead of the first; the rest of a sector after a short write is arbitrary, as the disk driver leaves it.
- FatCode.Fat439.constructor: super block and FAT are given as numbers, not as the bytes of sectors 0 and following; the magic number is not modelled.
- Persistence: FAT and super block changes stay in memory, so nothing is said about a crash or an unmount.
- MkfsCode.Image.Build: what the write behind the image does is not modelled, nor are files on an image without a data block, and errors of the host system.
- FatImage.LookupFinds: names are distinct, free of NUL, at most eleven characters and not ".".
- SchedRuns.RunStable: only processes that end themselves; `kill` of another process is a flag that is checked later and is not modelled. The idle process never blocks. Semaphores start at 0 or more. The ready, waiting and reaper queues are sequences; `QueueCode` is the linked list behind them. Panics are recorded by their line numbers.
- SchedCode.Kernel.Dispatch: a context switch changes the running process and nothing else; stack overflow checks, address space activation and the TSS are left out.
- SchedCode.Kernel.PicIrq: interrupts other than the timer do nothing but yield; the keyboard handler, which puts into a bounded buffer inside an interrupt and may block there, is left out.
- SchedCalls.IrqStable: as for SchedCode.Kernel.PicIrq, handlers other than the timer's do nothing.
- SchedCode.Kernel.YieldOn: the idle process exists from boot; that the code makes it at the first yield that needs it is left out.
- SchedCode.Kernel.CheckReaper: the unref of the process object is in RefCode.Resources.ReapProcess.
- SchedMutex.OneHolder: that only holders unlock is what the callers of a mutex keep to; `Semaphore::up` does not check it.
- SchedTimers.SleepForTarget: `jiffies`, `millis * hz` and targets stay below 2^32.
- BufferRuns.Safe: `down` and `up` are single steps, which is what the proofs about the scheduler show; a producer in an interrupt handler is not modelled.
- VmmRuns.RunSound: memory ends at 4 MB (VmmSelf.DestroyFreesOwn says why); fork, exec, creation and destruction are single steps; the code can be interrupted between two allocations. Nothing is said after a panic for want of frames. The addresses handed to the processor, cache invalidation and `vmm_on` are left out.
- VmmCode.AddressSpace.HandlePageFault: the processor reports a fault in the upper half only for pages that are not mapped, because all mapped ones allow everything; killing the process is an outcome, not a step.
- RefRuns.RunInv: operations on tables are single steps, and an `execv` that finds no file is none. `Table::get` on an empty slot dereferences null and is not modelled; neither is the lookup of names, which only chooses the first block.
- PrintCode.FmtInt: the format string interpreter, `fmtstr`, floating point, `%n` and `%w` are left out.
- ShellCode.Tokenize: allocation does not fail, and the buffers are not freed.
- Port I/O, IDE, PIC and PIT programming, serial line, VGA, keyboard, PCI, network, boot code, descriptor tables, ELF loading, console, editor and shell display: hardware or user interface.
- Arithmetic of very large sizes other than the wrap in `malloc`: unbounded.
