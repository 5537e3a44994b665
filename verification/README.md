# Nachos 3.4: a model of the kernel and its proofs

Nachos is a small operating system kernel on a simulated machine. This project models the
parts of it whose correctness is not visible from one function, and proves what they promise.

**File system.** `Bits`, `Bytes`, `BitMaps`, `DiskImages`, `FileHeaders`, `OpenFiles`,
`Directories` and `FileSystems` are the objects of `filesys/` and `userprog/bitmap.cc`, with
their arrays, loops and on-disk layouts. `FileSystemSpec` says when a disk is sound,
`FileSystemSteps` what each operation keeps, and `FileSystemRuns` what every run of operations
looks like to a user: a map from names to bytes. The bitmap and the directory are themselves files
of the disk they describe.

**Simulated machine.** `Lists` is the linked list under every queue. `Interrupts` is the clock
and the pending interrupts, `Disks` the raw disk with its timing, `Mips` the multiplication and the
trapping additions of the processor, after the MULT, MULTU, ADD, ADDI and SUB entries of Kane's
MIPS book.

**Concurrency.** `Synch` holds the semaphore, lock and condition objects. `Kernels` runs them:
a transition system over any number of these objects and of threads, in which the code between the
calls is a parameter, so that its results hold for every program. The processor switches threads
only where simulated time advances, so everything done with interrupts off is one step.
`SynchLists`, `SynchDiskRuns`, `ProducersConsumers`, `BoundedBuffers`, `Barriers`,
`ReadersWriters` and `PostOffices` are programs of that system; each is proved over all its runs.
`Schedulers`, `Processors` and `Threads` are the ready list, the thread table and the life of
threads in every run, `Mails` and `Networks` the packets and the wires.

Words are integers with a bound, and `|`, `&`, `^`, `~` are defined bit by bit in `Bits`. The
date, the contents of uninitialised buffers, the loss of packets and what device handlers do are
parameters or free choices. Where the source and its comments differ the model follows the code:
`ByteToSector` with its `<=` and one-byte index entries, `Add` and `Find` on the first eleven
characters of a name, and a switch into a new thread that skips the deletion of the finished one.

## Model

| member | source | states |
|---|---|---|
| `BitMaps.MarkWordBits` | nachos-3.4/userprog/bitmap.cc:48-52 | or-ing in `1 << k` sets bit `k` of a word and no other bit |
| `BitMaps.ClearWordBits` | nachos-3.4/userprog/bitmap.cc:62-66 | and-ing with the complement of `1 << k` clears bit `k` of a word and no other bit |
| `BitMaps.BitMap.constructor` | nachos-3.4/userprog/bitmap.cc:20-28 | a new map has all bits clear |
| `BitMaps.BitMap.Mark` | nachos-3.4/userprog/bitmap.cc:48-52 | sets the one bit, seen through the packed words as a sequence of booleans |
| `BitMaps.BitMap.Clear` | nachos-3.4/userprog/bitmap.cc:62-66 | clears the one bit, seen through the packed words as a sequence of booleans |
| `BitMaps.BitMap.Test` | nachos-3.4/userprog/bitmap.cc:76-84 | answers the bit |
| `BitMaps.BitMap.Find` | nachos-3.4/userprog/bitmap.cc:96-104 | answers the lowest clear bit and marks it, or -1 and changes nothing when none is clear |
| `BitMaps.BitMap.NumClear` | nachos-3.4/userprog/bitmap.cc:113-120 | counts the clear bits |
| `BitMaps.CountClearZero` | nachos-3.4/userprog/bitmap.cc:96-120 | the count is zero exactly when Find finds nothing |
| `FileSystems.FetchBitMap` | nachos-3.4/userprog/bitmap.cc:150-153 | loads the words from the file's bytes |
| `FileSystems.WriteBackBitMap` | nachos-3.4/userprog/bitmap.cc:163-166 | stores the words as the file's bytes and touches no other sector |
| `FileHeaders.HeaderRoundTrip` | nachos-3.4/filesys/filehdr.cc:114-130 | a header stored in a sector and fetched from it is the same header |
| `FileHeaders.FileHeader.Allocate` | nachos-3.4/filesys/filehdr.cc:44-69 | succeeds exactly when enough sectors are clear; then it takes the lowest clear ones, distinct, marks exactly those, and describes them in order; otherwise the map is unchanged |
| `FileHeaders.FileHeader.Deallocate` | nachos-3.4/filesys/filehdr.cc:79-104 | clears exactly the file's data sectors; the ASSERT that each is marked holds |
| `FileHeaders.FileHeader.ByteToSector` | nachos-3.4/filesys/filehdr.cc:143-155 | the sector looked up, with the source's bound and its one-byte signed index entries |
| `FileHeaders.LocateExact` | nachos-3.4/filesys/filehdr.cc:143-155 | for a file with an index sector the lookup is right if and only if the offset is below 1792, or above it with a block number below 128 |
| `FileHeaders.LocateFails` | nachos-3.4/filesys/filehdr.cc:143-155 | a 2048-byte file of an allocation from sector 121 on, for which offset 1792 finds the index sector 135 and block 137 is answered as -119 |
| `FileHeaders.FileHeader.FetchFrom` | nachos-3.4/filesys/filehdr.cc:114-117 | loads the header stored in the sector |
| `FileHeaders.FileHeader.WriteBack` | nachos-3.4/filesys/filehdr.cc:127-130 | stores the header in the sector; fetching gives it back |
| `OpenFiles.OpenFile.constructor` | nachos-3.4/filesys/openfile.cc:30-36 | the header in memory is the one on disk and the position is 0 |
| `OpenFiles.OpenFile.ReadAt` | nachos-3.4/filesys/openfile.cc:122-149 | for every position from 0 and every size, the clipped slice of the file seen as flat bytes, and no byte of the caller's buffer outside it |
| `OpenFiles.OpenFile.ReadSectors` | nachos-3.4/filesys/openfile.cc:139-143 | the buffer holds the file's bytes of the sectors read |
| `OpenFiles.OpenFile.WriteAt` | nachos-3.4/filesys/openfile.cc:152-191 | for every position from 0 and every size, the clipped splice of the file seen as flat bytes: partly written sectors keep their other bytes, the length stays, and every sector outside the file is unchanged |
| `OpenFiles.OpenFile.ReadEdges` | nachos-3.4/filesys/openfile.cc:170-181 | the first and last sector are read in exactly so that the bytes around the write survive |
| `OpenFiles.OpenFile.WriteSectors` | nachos-3.4/filesys/openfile.cc:186-189 | the touched sectors hold the buffer and no other sector changes |
| `OpenFiles.OpenFile.Seek` | nachos-3.4/filesys/openfile.cc:57-60 | moves the position |
| `OpenFiles.OpenFile.Read` | nachos-3.4/filesys/openfile.cc:76-83 | one sequential read, moving the position; the file's bytes are unchanged although the header sector is rewritten with the access date |
| `OpenFiles.OpenFile.Write` | nachos-3.4/filesys/openfile.cc:86-93 | one sequential write, moving the position; besides the data only the header sector is rewritten |
| `OpenFiles.PutAllIsPut` | nachos-3.4/filesys/openfile.cc:86-93 | a stream written in any chunks leaves the same file and position as the stream written at once |
| `OpenFiles.TakeAllIsTake` | nachos-3.4/filesys/openfile.cc:76-83 | a file read in any sizes gives the same bytes as one read of their total |
| `OpenFiles.WriteThenRead` | nachos-3.4/filesys/openfile.cc:75-191 | what is written under any chunking and fits is read back the same under any other chunking |
| `Directories.StrnEqualMeaning` | nachos-3.4/filesys/directory.cc:109-118 | the bounded comparison holds exactly when the stored name equals the first eleven characters of the name asked for |
| `Directories.CopiedName` | nachos-3.4/filesys/directory.cc:150-173 | the bounded copy stores the first eleven characters of the name |
| `Directories.TableRoundTrip` | nachos-3.4/filesys/directory.cc:66-98 | a table stored as bytes and fetched from them is the same table |
| `Directories.Directory.constructor` | nachos-3.4/filesys/directory.cc:37-43 | no entry is in use |
| `Directories.Directory.FetchFrom` | nachos-3.4/filesys/directory.cc:66-79 | the table is the one in the file |
| `Directories.Directory.WriteBack` | nachos-3.4/filesys/directory.cc:89-98 | the file holds the table and no other sector changes |
| `Directories.Directory.FindIndex` | nachos-3.4/filesys/directory.cc:109-118 | the first entry in use under that name, or -1 when none is |
| `Directories.Directory.Find` | nachos-3.4/filesys/directory.cc:130-136 | the header sector of that entry, or -1 |
| `Directories.Directory.Add` | nachos-3.4/filesys/directory.cc:150-173 | fails, changing nothing, if the name is taken or no entry is unused; otherwise fills the first unused entry and no other |
| `Directories.Directory.Remove` | nachos-3.4/filesys/directory.cc:184-193 | fails, changing nothing, if the name is absent; otherwise only marks its entry unused |
| `FileSystems.FileSystem.constructor` | nachos-3.4/filesys/filesys.cc:149-154 | opening a sound disk gives a valid file system |
| `FileSystems.FileSystem.Format` | nachos-3.4/filesys/filesys.cc:91-136 | whatever was on the disk, the result is sound, names no file, and marks exactly the five sectors of the two system files |
| `FileSystems.FileSystem.Create` | nachos-3.4/filesys/filesys.cc:187-237 | succeeds exactly when the name is free, an entry is unused and the sectors suffice; then the disk changes as CreateStep says; otherwise it does not change at all |
| `FileSystems.FileSystem.Open` | nachos-3.4/filesys/filesys.cc:250-271 | null exactly when no file has the name; otherwise a handle on that file |
| `FileSystems.FileSystem.Remove` | nachos-3.4/filesys/filesys.cc:288-326 | succeeds exactly when the name is present; then its sectors and its entry are released and nothing else; otherwise the disk does not change at all |
| `FileSystems.HandleWrites` | nachos-3.4/filesys/openfile.cc:152-191 | a write through a handle that Open returned is a write step of that file |
| `FileSystems.HandleTouches` | nachos-3.4/filesys/openfile.cc:76-93 | the header rewrite that ends a Read or Write through a handle is a date step of that file, and the handle stays one |
| `FileSystems.HandleWritesThenTouches` | nachos-3.4/filesys/openfile.cc:86-93 | a Write through a handle is a write step and then a date step of that file, and the handle stays one |
| `FileSystems.HandleKept` | nachos-3.4/filesys/filesys.cc:187-326 | a handle is still one after every step on any file except the removal of its own, whether or not the step succeeded |
| `FileSystems.HandleRuns` | nachos-3.4/filesys/filesys.cc:187-326 | a handle is one at every point of every run up to the removal of its file |
| `FileSystemSteps.CreateKeeps` | nachos-3.4/filesys/filesys.cc:187-237 | creating keeps the disk sound: the sectors marked in the packed bitmap are exactly those of the bitmap file, the directory file and the named files, none shared; the new file is there and the others are the same |
| `FileSystemSteps.RemoveKeeps` | nachos-3.4/filesys/filesys.cc:288-326 | removing keeps the disk sound and leaves exactly the other files |
| `FileSystemSteps.WriteKeeps` | nachos-3.4/filesys/openfile.cc:152-191 | writing keeps the disk sound and changes the bytes of that file only |
| `FileSystemSteps.TouchKeeps` | nachos-3.4/filesys/openfile.cc:76-93 | rewriting a header with a new date keeps the disk sound and every file's bytes |
| `FileSystemRuns.SpaceLeft` | nachos-3.4/filesys/filesys.cc:203-220 | in a sound file system, twelve files of at most fifteen sectors, at least 844 sectors are clear |
| `FileSystemRuns.CanCreateIff` | nachos-3.4/filesys/filesys.cc:187-237 | creation is possible if and only if the name is new and fewer than ten files exist; running out of sectors cannot happen |
| `FileSystemRuns.CreateEffect` | nachos-3.4/filesys/filesys.cc:187-237 | seen as a map from names to bytes, creation adds one name with that many bytes, or changes nothing |
| `FileSystemRuns.RemoveEffect` | nachos-3.4/filesys/filesys.cc:288-326 | seen as a map from names to bytes, removal drops one name, or changes nothing |
| `FileSystemRuns.WriteEffect` | nachos-3.4/filesys/openfile.cc:152-191 | seen as a map from names to bytes, a write splices one file's bytes |
| `FileSystemRuns.TouchEffect` | nachos-3.4/filesys/openfile.cc:76-93 | seen as a map from names to bytes, the date step of HandleTouches is invisible |
| `FileSystemRuns.StepEffect` | nachos-3.4/filesys/filesys.cc:187-326 | every operation keeps the disk sound and refines its effect on the map from names to bytes |
| `FileSystemRuns.RunSound` | nachos-3.4/filesys/filesys.cc:88-326 | over every run of operations every image is sound, with the marked sectors exactly the occupied ones, and every step refines its effect |
| `FileSystemRuns.CreateThenRemove` | nachos-3.4/filesys/filesys.cc:187-326 | creating a name and removing it restores the free map, the files and every name |
| `Lists.InsertedSorted` | nachos-3.4/threads/list.cc:185-212 | sorted insertion keeps a sorted list sorted |
| `Lists.InsertedElements` | nachos-3.4/threads/list.cc:185-212 | sorted insertion adds the one entry and loses none |
| `Lists.Reinserted` | nachos-3.4/threads/list.cc:185-249 | taking the head off a sorted list and inserting it again puts it behind all entries of equal key |
| `Lists.List.constructor` | nachos-3.4/threads/list.cc:43-47 | an empty list |
| `Lists.List.IsEmpty` | nachos-3.4/threads/list.cc:161-167 | true exactly on the empty list |
| `Lists.List.Append` | nachos-3.4/threads/list.cc:79-91 | on linked cells: the old contents and then the item |
| `Lists.List.Prepend` | nachos-3.4/threads/list.cc:106-118 | on linked cells: the item and then the old contents |
| `Lists.List.SortedInsert` | nachos-3.4/threads/list.cc:185-212 | on linked cells: the item before the first strictly larger key, everything else in place |
| `Lists.List.SortedRemove` | nachos-3.4/threads/list.cc:229-249 | the head with its key, or None exactly when empty; the rest stays in order |
| `Lists.List.Remove` | nachos-3.4/threads/list.cc:254-281 | unlinks the first cell carrying the item, keeping the order of the rest |
| `Interrupts.Interrupt.constructor` | nachos-3.4/machine/interrupt.cc:60-67 | interrupts off, nothing pending |
| `Interrupts.Interrupt.SetLevel` | nachos-3.4/machine/interrupt.cc:115-128 | sets the level and answers the old one; time passes exactly when interrupts go from off to on |
| `Interrupts.Interrupt.OneTick` | nachos-3.4/machine/interrupt.cc:152-180 | advances the clock by the mode's tick and leaves no pending interrupt due, for any handlers that schedule into the future |
| `Interrupts.Interrupt.Drain` | nachos-3.4/machine/interrupt.cc:170-171 | the loop ends, because each round leaves fewer due entries, and everything it fires fires at the current time |
| `Interrupts.Interrupt.YieldOnReturn` | nachos-3.4/machine/interrupt.cc:195-199 | asks for a switch on return |
| `Interrupts.Interrupt.Idle` | nachos-3.4/machine/interrupt.cc:213-237 | halts exactly when nothing, or only a lone timer interrupt, is pending; otherwise the clock jumps to the first pending interrupt, which fires |
| `Interrupts.Interrupt.Schedule` | nachos-3.4/machine/interrupt.cc:268-278 | puts the interrupt in its place on the pending list and keeps the whole-run invariant |
| `Interrupts.Interrupt.CheckIfDue` | nachos-3.4/machine/interrupt.cc:297-346 | fires the head exactly when it is due (or may be jumped to) and is not a lone timer of an idle machine; otherwise the pending list is the same up to order among equal times |
| `Interrupts.Interrupt.Invoke` | nachos-3.4/machine/interrupt.cc:337-343 | a handler runs in kernel mode and the mode is restored after it |
| `Interrupts.ScheduleKeeps` | nachos-3.4/machine/interrupt.cc:268-278 | scheduling keeps: fired times never decrease, none fires early, nothing is lost or fired twice, nothing pending is earlier than what has fired |
| `Interrupts.FireKeeps` | nachos-3.4/machine/interrupt.cc:297-346 | firing the head of the sorted list keeps the same |
| `Interrupts.PutBackKeeps` | nachos-3.4/machine/interrupt.cc:317-329 | putting the head back keeps the same although ties rotate |
| `Interrupts.FiresOnce` | nachos-3.4/machine/interrupt.cc:297-346 | two different places of the log hold different interrupts |
| `Interrupts.JumpSafe` | nachos-3.4/machine/interrupt.cc:313-316 | an idle jump never passes a pending interrupt |
| `Disks.ModuloDiff` | nachos-3.4/machine/disk.cc:203-209 | the number of slots until the sector next passes the head: it passes then and not before |
| `Disks.BufferedIff` | nachos-3.4/machine/disk.cc:240-246 | the track-buffer test holds if and only if the sector went completely past the head between the start of the buffer and the next sector boundary |
| `Disks.FirstPassAfter` | nachos-3.4/machine/disk.cc:249-252 | off the buffer the transfer ends on a sector boundary, fills the slot before it, and no earlier slot after the seek would do |
| `Disks.Disk.constructor` | nachos-3.4/machine/disk.cc:43-68 | an idle disk with the head on sector 0 and the track buffer started at time 0 |
| `Disks.Disk.TimeToSeek` | nachos-3.4/machine/disk.cc:180-194 | seek ticks by track distance, and the wait that ends on the next sector boundary |
| `Disks.Disk.ComputeLatency` | nachos-3.4/machine/disk.cc:233-253 | between 500 and 31999 ticks in every reachable state; 500 exactly for a read the track buffer holds, else the first pass of the sector after the seek |
| `Disks.Disk.UpdateLast` | nachos-3.4/machine/disk.cc:262-271 | the buffer restarts, on a sector boundary, exactly when the head changed track |
| `Disks.Disk.ReadRequest` | nachos-3.4/machine/disk.cc:116-133 | delivers the sector at once, becomes active, and is due after the latency |
| `Disks.Disk.WriteRequest` | nachos-3.4/machine/disk.cc:136-153 | stores the sector at once, becomes active, and is due after the latency |
| `Disks.Disk.HandleInterrupt` | nachos-3.4/machine/disk.cc:162-166 | the disk is idle again and its track buffer does not start in the future |
| `Mips.MultLoop` | nachos-3.4/machine/mipssim.cc:659-678 | 32 rounds of shift and add, the arithmetic shift of the multiplier and the early exit give the exact unsigned 64-bit product |
| `Mips.AddDouble` | nachos-3.4/machine/mipssim.cc:664-668 | addition of double words with the carry taken from the wrapped low sum |
| `Mips.ShiftDouble` | nachos-3.4/machine/mipssim.cc:672-676 | left shift of a double word |
| `Mips.StripSigns` | nachos-3.4/machine/mipssim.cc:645-655 | the sign and the magnitudes, for the minimum integer too, with negation wrapping |
| `Mips.Complement` | nachos-3.4/machine/mipssim.cc:682-688 | two's complement of a double word |
| `Mips.Mult` | nachos-3.4/machine/mipssim.cc:636-692 | HI:LO is the exact 64-bit product of all 32-bit inputs, signed or unsigned |
| `Mips.SignsDiffer` | nachos-3.4/machine/mipssim.cc:127-128 | the exclusive-or test on the sign bit compares signs |
| `Mips.ExecuteAdd` | nachos-3.4/machine/mipssim.cc:125-133 | raises the overflow exception exactly when the sum is out of range, changing nothing; else only the target register changes, to the exact sum |
| `Mips.ExecuteAddImmediate` | nachos-3.4/machine/mipssim.cc:135-143 | the same for an immediate, although the test compares with the immediate |
| `Mips.ExecuteSub` | nachos-3.4/machine/mipssim.cc:457-465 | the same for the exact difference |
| `Kernels.TurnKeeps` | nachos-3.4/threads/synch.cc:65-77 | a turn of P keeps: value never negative, and while threads sleep the value is at most the number woken and not yet back |
| `Kernels.UpKeeps` | nachos-3.4/threads/synch.cc:88-98 | V keeps the same |
| `Kernels.NotifyKeeps` | nachos-3.4/threads/synch.cc:161-171 | Signal moves the first waiter to the ready ones and loses nobody |
| `Kernels.NotifyAllKeeps` | nachos-3.4/threads/synch.cc:172-181 | Broadcast ends with the queue empty and everyone in it ready |
| `Kernels.StepKeeps` | nachos-3.4/threads/synch.cc:64-181 | every step of every program over any number of semaphores, locks, conditions and threads keeps each object consistent with the threads inside its calls |
| `Kernels.SemaphoreRuns` | nachos-3.4/threads/synch.cc:64-98 | in every interleaving the value is the initial value plus completed V's less completed P's, never negative, and at most the number of woken threads while anyone sleeps |
| `Kernels.LockRuns` | nachos-3.4/threads/synch.cc:119-133 | in every interleaving a lock has value 1 exactly when it has no owner, and a thread is between Acquire and Release exactly if it is the owner |
| `Kernels.OneHolder` | nachos-3.4/threads/synch.cc:119-133 | at most one thread is between Acquire and Release |
| `Kernels.SleeperAdvances` | nachos-3.4/threads/synch.cc:64-98 | a sleeper in P keeps its place until V's from the front reach it |
| `Kernels.WokenInTurn` | nachos-3.4/threads/synch.cc:64-98 | a sleeper with i others before it is made ready by the (i+1)-th V at the latest |
| `Kernels.StepAdvances` | nachos-3.4/threads/synch.cc:146-181 | a waiter keeps its place until Signals from the front, or a Broadcast, reach it |
| `Kernels.NoMissedSignal` | nachos-3.4/threads/synch.cc:146-181 | since Wait releases and joins in one step, a waiter with i others before it is made ready by the (i+1)-th later Signal, or a Broadcast, at the latest |
| `Kernels.RunConsistent` | nachos-3.4/threads/synch.cc:64-181 | every run of every program keeps the consistency of StepKeeps |
| `Kernels.NewConsistent` | nachos-3.4/threads/synch.cc:36-141 | new semaphores with values from 0, free locks, empty conditions and threads outside all calls are consistent |
| `Kernels.RunsKeep` | nachos-3.4/threads/synch.cc:64-181 | what no step of a program breaks holds in all its runs, and none of the ASSERTs on lock ownership fires |
| `Kernels.StuckNobodyReady` | nachos-3.4/threads/synch.cc:64-181 | at a standstill of any program no thread that was made ready has yet to run |
| `Kernels.AsleepInP` | nachos-3.4/threads/synch.cc:65-77 | at a standstill a semaphore someone sleeps on has value 0 |
| `Kernels.AsleepInAcquire` | nachos-3.4/threads/synch.cc:119-125 | at a standstill a lock someone sleeps on is held by some thread |
| `Synch.WakeFirst` | nachos-3.4/threads/synch.cc:93-95 | the first waiter, if any, moves from the wait queue to the ready list |
| `Synch.Semaphore.constructor` | nachos-3.4/threads/synch.cc:36-41 | the initial value and an empty queue |
| `Synch.Semaphore.Turn` | nachos-3.4/threads/synch.cc:69-76 | one turn of the loop is the step Turn of the transition system; the level is the caller's again when the call is done |
| `Synch.Semaphore.P` | nachos-3.4/threads/synch.cc:65-77 | P up to its return or first Sleep is the step Turn; on return the level is the one it was entered with, which a sleeping call hands to its later turns |
| `Synch.Semaphore.V` | nachos-3.4/threads/synch.cc:88-98 | V is the step Up, readies exactly the first sleeper, and restores the level |
| `Synch.Lock.constructor` | nachos-3.4/threads/synch.cc:103-107 | a free lock |
| `Synch.Lock.Acquire` | nachos-3.4/threads/synch.cc:119-125 | Acquire up to its return or first Sleep is the step Take; on return the level is the one it was entered with, which a sleeping call hands to its later turns |
| `Synch.Lock.Turn` | nachos-3.4/threads/synch.cc:119-125 | what an Acquire does each time it runs again after a Sleep is the step Take; when it returns the thread owns the lock and the level is the one Acquire was entered with |
| `Synch.Lock.Release` | nachos-3.4/threads/synch.cc:127-133 | Release by the owner is the step Give, and restores the level |
| `Synch.Condition.constructor` | nachos-3.4/threads/synch.cc:138-141 | an empty queue |
| `Synch.Condition.Wait` | nachos-3.4/threads/synch.cc:146-155 | up to Sleep, in one step with interrupts off: the lock is given, its first sleeper alone is made ready, and the thread is last in the queue |
| `Synch.Condition.Resume` | nachos-3.4/threads/synch.cc:156-158 | what a Wait does when it runs again: the thread leaves the condition, its Acquire is the step Take, and if that returns so does Wait, with the level it was entered with |
| `Synch.Condition.Turn` | nachos-3.4/threads/synch.cc:157-158 | what a Wait asleep in its Acquire does each time it runs again is the step Take; when it returns the level is the one Wait was entered with |
| `Synch.Condition.Signal` | nachos-3.4/threads/synch.cc:161-171 | Signal by the owner is the step Notify and restores the level |
| `Synch.Condition.Broadcast` | nachos-3.4/threads/synch.cc:172-181 | the loop ends with the queue empty, everyone ready in order, and the level restored |
| `Schedulers.Scheduler.constructor` | nachos-3.4/threads/scheduler.cc:30-34 | an empty ready list |
| `Schedulers.Scheduler.ReadyToRun` | nachos-3.4/threads/scheduler.cc:55-66 | puts the thread last, or in its place by priority, keeping a priority list sorted |
| `Schedulers.Scheduler.FindNextToRun` | nachos-3.4/threads/scheduler.cc:77-110 | both builds: the head, removed, when the caller sleeps, or when it yields to a head of strictly better priority; otherwise None, with the head put back behind its equals |
| `Threads.FreeId` | nachos-3.4/threads/thread.cc:30-40 | the lowest free id, or -1 exactly when none is free |
| `Threads.AllocatedThreadID` | nachos-3.4/threads/thread.cc:30-40 | the loop finds the lowest free id and marks it, or answers -1 and changes nothing |
| `Threads.CreateInv` | nachos-3.4/threads/thread.cc:49-76 | creating a thread, with any priority argument, keeps the invariant of all threads: places, ends, ids and keys; one outside 0 to 10 leaves the field as it was in memory |
| `Threads.ForkInv` | nachos-3.4/threads/thread.cc:127-138 | Fork keeps it |
| `Threads.YieldInv` | nachos-3.4/threads/thread.cc:214-233 | Yield that switches keeps it, runs the head and queues the yielder |
| `Threads.StayInv` | nachos-3.4/threads/scheduler.cc:91-101 | Yield that does not switch keeps it, although the head rotates behind its equals |
| `Threads.SleepInv` | nachos-3.4/threads/thread.cc:255-269 | Sleep on a wait queue keeps it |
| `Threads.FinishInv` | nachos-3.4/threads/thread.cc:183-193 | Finish keeps it |
| `Threads.WakeInv` | nachos-3.4/threads/synch.cc:88-98 | making the first waiter of a queue ready keeps it, also while the machine idles and the waiter is the current thread |
| `Threads.DispatchInv` | nachos-3.4/threads/thread.cc:264-268 | the switch that ends Sleep keeps it and runs the head of the ready list |
| `Threads.ReapedInv` | nachos-3.4/threads/scheduler.cc:157-171 | the thread deleted after SWITCH is not the current one, as the destructor asserts, and the invariant stays |
| `Threads.StepInv` | nachos-3.4/threads/thread.cc:30-269 | every step keeps the invariant of all threads |
| `Threads.RunInv` | nachos-3.4/threads/thread.cc:30-269 | every run keeps it, and a deleted thread stays deleted |
| `Threads.OnePlace` | nachos-3.4/threads/thread.cc:30-269 | in every run each live thread is in exactly one place, once: new, running, ready, on one wait queue, or finished; the current thread is the running one unless it is asleep |
| `Threads.DeletedForGood` | nachos-3.4/threads/scheduler.cc:152-171 | in every run a deleted thread is never current nor on any list again and is not deleted twice |
| `Threads.DistinctIds` | nachos-3.4/threads/thread.cc:30-104 | in every run live threads have different ids, at most 128 live, and allocation fails exactly at 128 |
| `Threads.BestRuns` | nachos-3.4/threads/scheduler.cc:54-110 | by priority, in every run: after a Yield, or the switch that ends Sleep, no ready thread has a strictly smaller priority value than the running one |
| `Threads.RunsInTurn` | nachos-3.4/threads/scheduler.cc:54-110 | first come first served: a thread at index k of the ready list gets the processor at exactly the (k+1)-th later switch |
| `Threads.DeletedWhen` | nachos-3.4/threads/scheduler.cc:146-171 | at every step: the thread waiting to be deleted is deleted exactly if the step switches to a thread that has run before; a Finish before that leaves it unclaimed, any other step leaves it waiting |
| `Threads.DeletedIff` | nachos-3.4/threads/scheduler.cc:146-171 | over every run: a finished thread is deleted if and only if, before another Finish, some step switches to a thread that has run before |
| `Threads.Forgotten` | nachos-3.4/threads/thread.cc:183-193 | a finished thread whose turn to be deleted was overwritten by another Finish is never deleted, in any run |
| `Threads.SomeRunForgets` | nachos-3.4/threads/thread.cc:183-193 | first come first served such a run exists: two threads created and forked, Yield, Finish, Dispatch, Finish, from the start of the machine |
| `Processors.Processor.constructor` | nachos-3.4/threads/system.cc:84-87 | the main thread runs, with id 0 taken and nobody else there |
| `Processors.Processor.Create` | nachos-3.4/threads/thread.cc:49-76 | a new thread object with the lowest free id, for any priority argument, is the step Create; it fails exactly when no id is free |
| `Processors.Processor.Fork` | nachos-3.4/threads/thread.cc:127-138 | in place: the step Fork, keeping the invariant of all threads |
| `Processors.Processor.Run` | nachos-3.4/threads/scheduler.cc:127-172 | in place: the switch, with the deletion after SWITCH exactly when the new thread has run before |
| `Processors.Processor.Yield` | nachos-3.4/threads/thread.cc:214-233 | in place: the step Yield, keeping the invariant of all threads |
| `Processors.Processor.Sleep` | nachos-3.4/threads/thread.cc:255-264 | in place: the step Sleep of a thread its caller has put on a wait queue |
| `Processors.Processor.Dispatch` | nachos-3.4/threads/thread.cc:265-268 | in place: one turn of the loop is the step Dispatch, or nothing when nobody is ready |
| `Processors.Processor.Finish` | nachos-3.4/threads/thread.cc:183-193 | in place: the step Finish up to the loop in Sleep |
| `ProducersConsumers.Bounds` | nachos-3.4/threads/threadtest.cc:116-150 | from the conserved slots: the counter is between 0 and N, a producer in its section never finds it full, a customer never finds it empty, and the section holds one thread |
| `ProducersConsumers.StepInv` | nachos-3.4/threads/threadtest.cc:116-150 | every step conserves empty + full + threads in flight = N and ties the counter to them |
| `ProducersConsumers.NeverFullNorEmpty` | nachos-3.4/threads/threadtest.cc:109-150 | in every run of any number of producers and customers both printing branches for full and empty are unreachable |
| `ProducersConsumers.NoDeadlock` | nachos-3.4/threads/threadtest.cc:109-150 | in every reachable state with a producer and a customer some step is possible |
| `BoundedBuffers.StepInv` | nachos-3.4/threads/threadtest.cc:190-242 | every step of any number of producers and customers keeps: no customer waits while messages outnumber those on their way, no producer while room does; no ASSERT fires |
| `BoundedBuffers.NobodyStranded` | nachos-3.4/threads/threadtest.cc:167-242 | in every run the counter keeps its bounds and nobody is stranded on either condition |
| `BoundedBuffers.NoDeadlock` | nachos-3.4/threads/threadtest.cc:167-242 | in every reachable state with a producer and a customer some step is possible |
| `Barriers.StepInv` | nachos-3.4/threads/threadtest.cc:264-282 | every step keeps: the counter counts the arrived, and nobody is let go below five; no ASSERT fires |
| `Barriers.FiveTogether` | nachos-3.4/threads/threadtest.cc:260-282 | in every run nobody passes before five have arrived, and once the fifth has broadcast nobody is left asleep unless a sixth arrives |
| `Barriers.FiveAllPass` | nachos-3.4/threads/threadtest.cc:260-290 | with five threads the system stands still only when all have passed; with fewer, only when all wait |
| `ReadersWriters.StepInv` | nachos-3.4/threads/threadtest.cc:299-332 | every step keeps the one unit free, with a writer, or with the readers as a group; no ASSERT fires |
| `ReadersWriters.Exclusion` | nachos-3.4/threads/threadtest.cc:299-332 | a writer in its section excludes every reading reader and every other writer |
| `ReadersWriters.ReadersAndWriters` | nachos-3.4/threads/threadtest.cc:294-332 | in every run exclusion holds and rCnt is the number of readers between increment and decrement, although one reader may give back what another took |
| `ReadersWriters.NoDeadlock` | nachos-3.4/threads/threadtest.cc:294-332 | in every reachable state with any thread at all some step is possible, although a reader takes wLock while holding rLock |
| `SynchLists.StepInv` | nachos-3.4/threads/synchlist.cc:54-83 | every step of any number of appenders and removers keeps: appended = removed + list, and a remover waits only if the list is no longer than those on their way to it; no ASSERT fires |
| `SynchLists.FirstInFirstOut` | nachos-3.4/threads/synchlist.cc:53-83 | in every run the items removed are a prefix of the items appended in lock order, and while a remover waits the list is no longer than the number of signalled removers that have not looked since, so nobody is stranded |
| `SynchLists.NoDeadlock` | nachos-3.4/threads/synchlist.cc:54-83 | the system stands still only when every thread waits in Remove and the list is empty |
| `SynchDiskRuns.IdleWhenIssued` | nachos-3.4/filesys/synchdisk.cc:73-97 | when a caller issues its request the raw disk is idle and no completion is left over |
| `SynchDiskRuns.DoneWhenFinished` | nachos-3.4/filesys/synchdisk.cc:73-97 | when a caller is back from P the disk is idle, no completion is left over, and its sector holds what its request says |
| `SynchDiskRuns.AtMostOne` | nachos-3.4/filesys/synchdisk.cc:73-109 | at most one request is unconsumed, and it is the lock holder's |
| `SynchDiskRuns.StepInv` | nachos-3.4/filesys/synchdisk.cc:73-109 | every step of any number of callers, and the interrupt, keeps: active plus the semaphore value counts the unconsumed request, and the requests form a one-at-a-time history |
| `SynchDiskRuns.Synchronous` | nachos-3.4/filesys/synchdisk.cc:72-109 | in every run the requests form a one-at-a-time history that the disk holds; a caller between its request and its Release has the last entry of it; once past P the disk is idle, no completion is left over and the sector holds what that entry says; and the disk is idle whenever a request is issued |
| `SynchDiskRuns.NoDeadlock` | nachos-3.4/filesys/synchdisk.cc:72-109 | in every reachable state with any caller at all a thread can go on or the disk can interrupt |
| `DiskImages.SynchDisk.ReadSector` | nachos-3.4/filesys/synchdisk.cc:73-79 | seen alone: the sector's bytes land in the caller's buffer |
| `DiskImages.SynchDisk.WriteSector` | nachos-3.4/filesys/synchdisk.cc:91-97 | seen alone: the one sector changes |
| `Mails.HeaderRoundTrip` | nachos-3.4/network/post.cc:278-279 | a header laid out as bytes is read back the same |
| `Mails.Intact` | nachos-3.4/network/post.cc:222-291 | headers and payload laid out on the wire come out as they went in, whatever the padding |
| `Mails.Concatenate` | nachos-3.4/network/post.cc:278-280 | a header and the payload, one after the other in a fresh buffer |
| `Mails.Compose` | nachos-3.4/network/post.cc:262-280 | the wire that Send builds carries the mail, with the sender's address and length filled in |
| `Mails.TakeApart` | nachos-3.4/machine/network.cc:75-79 | through the inbox and the worker's buffer the same mail comes out |
| `Networks.SentOk` | nachos-3.4/machine/network.cc:104-127 | sending, lost or not, keeps every route in order |
| `Networks.ArrivedOk` | nachos-3.4/machine/network.cc:61-87 | reading a packet into the free inbound buffer keeps every route in order; the ASSERT on its length holds |
| `Networks.ReceivedOk` | nachos-3.4/machine/network.cc:131-139 | taking the packet out of the buffer keeps every route in order and empties the buffer |
| `Networks.DeliveredOk` | nachos-3.4/network/post.cc:100-107 | putting mail in its box keeps every route in order; the box exists |
| `Networks.BoxInOrder` | nachos-3.4/network/post.cc:222-246 | the mail put in a box from one sender is, in order and without duplicates, part of what that sender sent to the box |
| `PostOffices.FreeToSend` | nachos-3.4/machine/network.cc:110-111 | the ASSERTs of Send hold: the device is free, the length is in range, the sender is this machine |
| `PostOffices.ReadyToReceive` | nachos-3.4/network/post.cc:230-244 | when the worker comes to Receive the buffer is full; when it comes to Put it has one message, for a box that exists |
| `PostOffices.StepInv` | nachos-3.4/network/post.cc:222-345 | every step of any number of machines, senders and interrupts keeps: the inbound buffer is full exactly when messageAvailable plus the worker between P and Receive counts one, and likewise for the packet going out |
| `PostOffices.MailInOrder` | nachos-3.4/network/post.cc:222-316 | in every run over every choice of lost packets the mail put in each box from one sender is an in-order, duplicate-free part of what it sent to that box, headers and payload intact; the inbound buffer is never overwritten, and the ASSERTs of Network::Send and of the postal worker hold whenever a thread reaches them |
| `PostOffices.NothingLeftBehind` | nachos-3.4/network/post.cc:222-345 | when no Send is started and nothing else can move, nothing is in transit to a machine with a worker: all mail that was not lost is in its box |

## Left out

- FileHeaders.FileHeader.Allocate: file sizes above 1792 bytes, because the indexed range does not do what it is meant to (LocateExact says when a lookup there is right), and sizes of -128 and below, which an unsigned comparison treats as large.
- FileHeaders.FileHeader.Deallocate: headers of more than 14 sectors, for the same reason.
- FileSystems.FileSystem.Create: the same bound on the size.
- OpenFiles.OpenFile.ReadAt: `position + numBytes` is not taken modulo 2^32, and negative positions are excluded, as the source assumes them away.
- OpenFiles.OpenFile.WriteAt: the same.
- OpenFiles.OpenFile.Read: a negative position, which Seek admits, is excluded for the same reason.
- OpenFiles.OpenFile.Write: the same.
- Synch.Semaphore.P: ends at the first Sleep; the rest of the call is Synch.Semaphore.Turn, once for each time the thread runs again, which Kernels orders.
- Synch.Lock.Acquire: ends at the first Sleep; the rest of the call is Synch.Lock.Turn.
- Synch.Condition.Wait: ends at its Sleep; the rest of the call is Synch.Condition.Resume and then Synch.Condition.Turn.
- Synch.Cpu.SetLevel: leaves out the tick of the clock that enabling interrupts causes; Interrupts.Interrupt.SetLevel models it.
- Interrupts.Interrupt.OneTick: answers whether the interrupted thread must yield; the Yield itself is a step of Threads.
- Processors.Processor.Sleep: ends before its loop; each turn of the loop is Processors.Processor.Dispatch, and what interrupt handlers do while the machine idles are steps of Threads.
- Processors.Processor.Finish: ends before the same loop.
- DiskImages.SynchDisk.ReadSector: one caller's view; the lock, the request and the semaphore are the program of SynchDiskRuns.
- DiskImages.SynchDisk.WriteSector: the same.
- Disks.Disk.HandleInterrupt: leaves out the call of the kernel's handler, which is the Interrupt step of SynchDiskRuns.
- Disks.Disk.ComputeLatency: the clock does not overflow.
- PostOffices.MailInOrder: a Put is one step; that a mailbox hands out mail in that order is SynchLists.FirstInFirstOut.
- Liveness beyond freedom from deadlock and "made ready by the n-th V or Signal": no fairness is assumed of the scheduler.
- The monitors SynchList, SynchDisk, the test programs and the post office are transition systems, not classes: their methods sleep in the middle.
- Address spaces, the TLB, program loading and page replacement.
- The rest of the instruction set; it is long and mostly one-branch facts.
- The elevator, the console, the timer, real sockets, the UNIX file behind the disk, stacks and context switch assembly, debug printing.
- The object-file converters, the disassembler and the old interpreter in `bin`.
- Directory listing and printing, Mapcar, and thread user state.
