# xv6 with MLFQ: a Dafny model

A model of the parts of this xv6 (RISC-V) where state is hardest to keep right, and proofs about it.
Code that works by updating state in place is a Dafny class or method in the same shape, proved against
a specification; protocols that run on several CPUs or across power failures are step systems, and the
results about them are about every run.

- **Log** (`kernel/log.c`): `LogMachine` is the log as a step system in which one step is one block write,
  so a crash can fall anywhere; `LogCrash` proves crash atomicity and group commit over whole runs;
  `LogSpace` is about the space reservation; `Log` is the code itself, proved to perform those steps.
- **Buffer cache** (`kernel/bio.c`): `CacheMachine` puts real buffers under the log, `CacheProofs` proves
  that they refine it; `CacheOrder` proves that the least recently used buffer is recycled, and `CacheRoom`
  says when the buffers run out; `BufferRing` is the linked list.
- **File system** (`kernel/fs.c`, `kernel/file.c`, `mkfs/mkfs.c`): `FsState`, `FsContent`, `FsInode`, `FsFree`
  define block maps, contents and inodes, and `FsFormat` is the disk byte by byte; `FileSystem` is the code;
  `CrashFs`, `CrashRuns` and `CrashSession` put it on the log, with the power failing anywhere; `Mkfs` builds an image.
- **Memory** (`kernel/vm.c`, `kernel/kalloc.c`, `kernel/proc.c`): `PageTable`, `Vm`, `Fork`, `Teardown`.
- **Processes** (`kernel/proc.c`, `kernel/spinlock.c`, `kernel/sleeplock.c`, `kernel/trap.c`): `ProcMachine` is the
  protocol of locks, `swtch`, sleep and wakeup, fork, exit and wait on eight CPUs, one lock operation or
  memory write at a time; `ProcSafety`, `ProcInvariant`, `ProcWakeup`, `ProcSleepLock`, `ProcFamily`, `ProcWait`,
  `ProcLoops` and `ProcKill` prove what every run keeps. `Mlfq`, `MlfqPace` and `MlfqBypass` are the multi-level
  feedback queue.
- **Devices and user code**: `Virtio` (`kernel/virtio_disk.c`), `Pipe` (`kernel/pipe.c`), `Heap`
  (`user/umalloc.c`), `ShellSyntax`, `ShellLex` and `Shell` (`user/sh.c`).

`Blocks` is bytes, little-endian words and bits of a disk block; `Prelude` is shared by several modules.
Blocks have 1024 bytes, NDIRECT is 12, LOGSIZE and NBUF are 30, NPROC is 64, NCPU is 8, NPQ is 5, as in
`kernel/param.h` and `kernel/fs.h`. Page-table entries follow the Sv39 format of section 4.4 of the RISC-V
privileged architecture manual, and the disk queues the split virtqueues of section 2.6 of the virtio 1.1
specification, as the source uses them.

## Findings

Properties that the source, or a comment in it, promises and that do not hold, with the exact condition under
which they do. Where comments and code differ the model follows the code.

- **The log can be one block too small.** `begin_op` reserves MAXOPBLOCKS entries for each operation, so that
  `log_write` never finds the log full. That is so if and only if `log.size` exceeds LOGSIZE
  (`LogSpace.SpaceBoundExact`); `mkfs` makes it equal (`LogSpace.MkfsLogCanPanic`).
- **A full log panics even on absorption.** The limit is checked before absorption is looked for, so with
  LOGSIZE entries even a block that is already logged cannot be logged again
  (`LogSpace.AbsorbingWriteCanPanic`). With a larger log that is the only panic, and every operation in progress
  has then used up its reservation (`LogSpace.PanicsWhenSpent`).
- **No size of the log is right.** A log with more than LOGSIZE blocks lets LOGSIZE buffers be pinned, and there
  are only NBUF = LOGSIZE buffers: `write_log` then has none left for the log block. Commit can always
  get a buffer if and only if the log has at most LOGSIZE blocks (`CacheRoom.BufferBoundExact`), so one of
  the two panics is possible whatever the size (`CacheRoom.NoSizeIsSafe`).
- **mkfs makes a hole.** The size of the root directory is rounded up even when it is a multiple of the block size;
  the last block is then missing. What mkfs leaves on the disk is a consistent file system if and only if the number of
  entries is not a multiple of 64 (`Mkfs.Build`); 62 files on the layout of this repository are a counterexample
  (`Mkfs.FullDirectory`).
- **A reader can sleep next to data.** A writer that is found killed after it has stored bytes returns without
  waking the readers; `Pipe.Pipe.Write` states exactly when, `Pipe.StrandedReader` is an example.
- **A process can be passed over any number of times within one tick.** Among processes with the same queue and stamp
  the lowest slot wins. The passes before a process in queue 0 is picked are bounded if and only if the tick of its stamp
  is over or no lower slot can get into queue 0 within it (`MlfqBypass.BypassExact`); the first child of init is an
  example of one that can be passed over (`MlfqBypass.PassedOver`).
- **kill(0) kills a process that does not exist yet.** An unused slot has pid 0, and `kill` does not look at the state.
  A process is killed when it is made if and only if kill(0) came to its slot while it was unused
  (`ProcKill.KilledAtBirth`), so never as long as nobody calls it (`ProcKill.NewbornAlive`); `ProcKill.DoomedChild`
  is an example.
- **growproc reports success when the size wraps around.** The new size is computed in 32 bits; it changes by n
  if and only if it does not wrap (`Teardown.Growproc`); a process that gives back more than it has keeps all of it
  (`Teardown.ShrinkPastZero`).
- **malloc claims memory it was not given.** The number of bytes goes to sbrk as a signed 32-bit number, so a request
  is met or refused properly if and only if it takes fewer than 2^31 bytes with its header, but for the last few bytes below
  2^32, where sbrk is asked for one unit and may refuse (`Heap.Allocator.Malloc`, `Heap.HugeRequest`).

## Model

| member | source | states |
|---|---|---|
| `LogMachine.HeadWritten` | kernel/log.c:102-114 | After `write_head` the header block reads back as the list that was written, whatever it held before |
| `LogCrash.HeadWriteCommits` | kernel/log.c:193-203 | The header write is the commit point: with every block copied it turns what recovery would produce for a home block from the committed content into the cached content |
| `LogCrash.InvPreserved` | kernel/log.c:67-235 | Every step, one block write or a crash among them, keeps the invariant on disk, cache, header and history |
| `LogCrash.RunInv` | kernel/log.c:67-235 | The invariant holds in every state of every run, with any number of crashes |
| `LogCrash.GroupCommit` | kernel/log.c:125-175 | In every interleaving of operations, with any number of crashes: a crash now plus recovery gives the committed groups replayed in order; a group holds every update of each of its operations and of no other; no operation is in two groups; the panic in `end_op` is out of reach |
| `LogCrash.GroupsArePrefix` | kernel/log.c:193-203 | Committed groups are never lost or reordered by anything that follows |
| `LogCrash.RecoveryYieldsCommitted` | kernel/log.c:116-123 | Recovery that runs to its end, through further crashes of its own, leaves exactly the committed groups in the home blocks |
| `LogCrash.CommitRunGroups` | kernel/log.c:178-203 | A commit cut short anywhere has added its group if and only if its header write was made |
| `LogCrash.CrashAtomicity` | kernel/log.c:67-123 | Commit cut short after any number of block writes, then recovery cut short any number of times: the home blocks end all new if the header write was made and all old otherwise |
| `LogCrash.RecoveryCompletes` | kernel/log.c:86-123 | From a crash in any reachable state recovery runs to its end: one read of the header, one write for each logged block, one header write |
| `LogSpace.SpaceSuffices` | kernel/log.c:126-142 | With `log.size` over LOGSIZE, an operation that has caused fewer than MAXOPBLOCKS entries never finds the log full, whether its block is logged already or not, and entries are distinct |
| `LogSpace.SpaceBoundExact` | kernel/log.c:214-235 | Operations with some of their MAXOPBLOCKS entries left never panic in `log_write` if and only if `log.size` exceeds LOGSIZE |
| `LogSpace.PanicsWhenSpent` | kernel/log.c:214-235 | With `log.size` over LOGSIZE, `log_write` panics exactly when the log holds LOGSIZE entries, and then every operation in progress has used up its MAXOPBLOCKS |
| `LogSpace.MkfsLogCanPanic` | mkfs/mkfs.c:25 | The log that mkfs lays out, LOGSIZE blocks with the header, lets such an operation panic |
| `LogSpace.AbsorbingWriteCanPanic` | kernel/log.c:220-229 | For every log size over LOGSIZE, a run in which the rewrite of a block that is already logged panics |
| `LogSpace.DistinctBlocksSuffice` | kernel/log.c:214-235 | In every run, operations that log at most MAXOPBLOCKS different blocks, however often each, keep the budget that the space bound asks for |
| `Log.Log.constructor` | kernel/log.c:55-65 | Starts in a state from which recovery must produce every home block as `Recovered` says |
| `Log.Log.BeginOp` | kernel/log.c:126-142 | Admits the operation if and only if no commit runs and its reservation fits, and then performs the Begin step; nobody is left asleep who could be admitted |
| `Log.Log.FindLogged` | kernel/log.c:225-228 | The first index in the header that holds the block, or the end |
| `Log.Log.Bwrite` | kernel/bio.c:107-112 | One block on the disk is replaced; every method of the log writes through it |
| `Log.Log.LogWrite` | kernel/log.c:214-235 | Panics if and only if the log is full or no operation is open; otherwise performs the Write step, absorbing a block already logged; nobody is left asleep who could be admitted |
| `Log.Log.EndOp` | kernel/log.c:146-175 | Never panics, performs the End step, and asks for a commit if and only if this was the last open operation; nobody is left asleep who could be admitted |
| `Log.Log.WriteHead` | kernel/log.c:102-114 | The header block becomes the encoding of the in-memory list, in one block write, which is one step of the log |
| `Log.Log.WriteLog` | kernel/log.c:178-191 | Copies the cached content of every listed block to its log block, one step of the log per block write; after none of the writes would a crash and recovery give anything else in any home block than before |
| `Log.Log.InstallTrans` | kernel/log.c:67-83 | Copies every log block to its home block, in order, one step of the log per block write; after none of the writes would a crash and recovery give anything else in any home block than before |
| `Log.Log.ReadHeader` | kernel/log.c:86-97 | The in-memory list becomes the one encoded in the header block |
| `Log.Log.Commit` | kernel/log.c:193-203 | If the power fails after any of its block writes, recovery gives in every home block what it would have given before, up to a certain write, and in every home block what the cache holds, from that write on; at the end every home block holds it |
| `Log.Log.RecoverFromLog` | kernel/log.c:116-123 | Every home block ends as the disk it found promised, and if the power fails again after any of its block writes, recovery gives the same |
| `Log.Log.FinishCommitting` | kernel/log.c:166-174 | The end of `end_op` lets operations in again, and wakes those that wait |
| `CacheProofs.Refines` | kernel/bio.c:58-151 | Every step of the real cache is a step of the log machine or leaves it alone |
| `CacheProofs.RecycledIsFree` | kernel/bio.c:75-87 | A buffer that bget recycles is unlocked, has no user, is not dirty and is not pinned by the log |
| `CacheProofs.UnpinLeavesReference` | kernel/log.c:67-84 | The one call of bunpin never drops the last reference: install_trans still holds the buffer |
| `CacheProofs.CInvPreserved` | kernel/bio.c:58-151 | Every step keeps: one buffer for a block, references counted, pinned blocks present, unlocked valid buffers showing the logical disk |
| `CacheProofs.CacheAgrees` | kernel/bio.c:58-151 | In every state of every run: a held buffer with nothing unlogged in it shows every committed group and every update logged since; no block has two buffers; logged blocks not yet installed stay referenced; a valid buffer neither locked nor pinned equals its block on the disk |
| `CacheProofs.CacheIsCrashSafe` | kernel/log.c:67-123 | In every state of every run of the real cache a crash plus recovery gives exactly the committed groups, each of complete operations |
| `CacheOrder.OnlyDropReleases` | kernel/bio.c:116-151 | In every reachable state, only brelse takes the last reference to a buffer; bunpin does not |
| `CacheOrder.OrderInRuns` | kernel/bio.c:116-137 | In every run, crashes included, the list holds every buffer once and its unreferenced buffers in the order in which they lost their last reference |
| `CacheOrder.RecyclesOldest` | kernel/bio.c:75-87 | In every run, crashes included, the buffer that bget recycles is the unreferenced one that lost its last reference longest ago |
| `CacheOrder.SomeChoice` | kernel/bio.c:75-88 | In every run, bget can recycle a buffer for an uncached block if and only if some buffer is unreferenced |
| `CacheRoom.BuffersRunOut` | kernel/bio.c:58-89 | In every reachable state bget has no buffer to give if and only if the block is not cached and pinned blocks and buffers in use add up to all buffers |
| `CacheRoom.RoomToCommit` | kernel/log.c:178-191 | With at most LOGSIZE log blocks, write_log finds a buffer in every reachable state in which no other thread uses one |
| `CacheRoom.CommitCanStick` | kernel/log.c:178-191 | With more log blocks, a run from power-on whose commit finds all NBUF buffers pinned, though no thread uses one |
| `CacheRoom.BufferBoundExact` | kernel/param.h:10-11 | Commit can always get a buffer, as long as no other thread keeps one, if and only if the log has at most LOGSIZE blocks |
| `CacheRoom.NoSizeIsSafe` | kernel/param.h:9-11 | For every size of the log, exactly one of the two panics, no log space and no buffer, is possible |
| `BufferRing.Bcache.constructor` | kernel/bio.c:36-53 | The ring links all NBUF buffers, unused, through the head |
| `BufferRing.Bcache.FindBlock` | kernel/bio.c:65-73 | The buffer of the block, or the head if no buffer has it |
| `BufferRing.Bcache.FindUnused` | kernel/bio.c:75-87 | The unreferenced buffer nearest the tail, or the head if every buffer is referenced |
| `BufferRing.Bcache.Bget` | kernel/bio.c:58-89 | A cached block gets one more reference; otherwise the unreferenced buffer nearest the tail is taken, which is the one released longest ago while the recency order holds; panics only if every buffer is referenced; ring and recency order are kept |
| `BufferRing.Bcache.MoveNode` | kernel/bio.c:128-133 | The six pointer writes move the buffer to the front of the ring and change no other order and no other field |
| `BufferRing.Bcache.ToFront` | kernel/bio.c:126-134 | A buffer that loses its last reference goes to the front, and the recency order holds again |
| `BufferRing.Bcache.Brelse` | kernel/bio.c:116-137 | One reference less; with the last one the buffer moves to the head and becomes the most recently released; the recency order is kept |
| `BufferRing.Bcache.Bpin` | kernel/bio.c:139-144 | One reference more, nothing else |
| `BufferRing.Bcache.Bunpin` | kernel/bio.c:146-151 | One reference less and nothing moves. The recency order is kept whenever a reference is left, which is so in every run (`CacheProofs.UnpinLeavesReference`); taken alone, it would also be kept without one if and only if the buffer is the unreferenced one nearest the head |
| `BufferRing.MovedToFront` | kernel/bio.c:128-133 | Unlinking and pushing leave one cycle through the head in the new order |
| `BufferRing.OldestIsLast` | kernel/bio.c:75-87 | While the list is in order of release, the unreferenced buffer nearest the tail was released before every other |
| `BufferRing.FrontIsNewest` | kernel/bio.c:126-134 | Moving the buffer released now to the front keeps the order of release |
| `FsState.GrownOwn` | kernel/fs.c:377-405 | Attaching a free block keeps: every block named by a slot belongs to that slot alone, and the blocks in use are the metadata and the owned ones |
| `FsState.GrownAddr` | kernel/fs.c:377-405 | After a block is attached every other slot of every inode names what it named |
| `FsContent.WroteChunk` | kernel/fs.c:497-506 | Patching one block puts the bytes at their place in the file and changes no other byte of any file |
| `FsContent.WroteContent` | kernel/fs.c:486-517 | Once the size is adjusted the content is the old one with the data put at the offset; all other contents are unchanged |
| `FsContent.ReadChunk` | kernel/fs.c:466-475 | The slice of a block that readi copies is the slice of the file content |
| `FsInode.ReadInodeOfPutWords` | kernel/fs.c:221-237 | An inode read back from the block it was written to is the inode |
| `FsInode.UpdatedKeeps` | kernel/fs.c:221-237 | Writing an inode to the disk brings that inode there and disturbs no other inode, no bit, no address and no data block |
| `FsFormat.WordIs` | kernel/log.c:88-96 | A 32-bit word of a block is its four bytes, low byte first |
| `FsFormat.InUseIs` | kernel/fs.c:71-81 | A block counts as in use exactly when its bit is set: bit b % 8 of byte b / 8 of the bitmap, counted from bmapstart |
| `FsFormat.InodeOnDisk` | kernel/fs.h:32-45 | The size and the thirteen addresses of an inode are at their byte offsets in block inodestart + i / 16 |
| `FsFormat.FileOnDisk` | kernel/fs.c:376-403 | Every byte of every file is where the raw bytes of inode and indirect block say: twelve direct addresses, then those in the indirect block |
| `FileSystem.FirstZero` | kernel/fs.c:73-82 | The first clear bit below the limit, all lower ones being set |
| `FileSystem.FileSystem.Balloc` | kernel/fs.c:64-86 | The lowest free block, marked and zeroed, with both writes logged; panics only if every block is in use |
| `FileSystem.FileSystem.Bfree` | kernel/fs.c:89-103 | Clears exactly the bit of the block; panics if and only if it is clear |
| `FileSystem.FileSystem.Grow` | kernel/fs.c:377-405 | A block that was free is attached to the empty slot; ownership is kept; every block written is logged |
| `FileSystem.FileSystem.SlotAddr` | kernel/fs.c:377-405 | A slot in use is returned with nothing changed; an empty one gets a zeroed block |
| `FileSystem.FileSystem.Bmap` | kernel/fs.c:377-405 | The address of the block of the file: as it is if there is one, otherwise a fresh zeroed block, with an indirect block if needed; no address that was set changes; panics on block numbers from MAXFILE on |
| `FileSystem.FileSystem.Readi` | kernel/fs.c:455-477 | Returns exactly the requested slice clipped at the size, 0 past the end or on wrap-around, -1 when the copy fails; the file system is unchanged, so nothing is allocated |
| `FileSystem.FileSystem.Iupdate` | kernel/fs.c:221-237 | The disk gets the sixteen words of the inode at its place in its block, in one logged write |
| `FileSystem.FileSystem.WriteChunk` | kernel/fs.c:497-506 | One round of the loop carries on: bytes written so far are in place, blocks written are logged, and those are the touched ones |
| `FileSystem.FileSystem.WriteChunks` | kernel/fs.c:497-506 | The loop writes all bytes that the source can supply |
| `FileSystem.FileSystem.Writei` | kernel/fs.c:486-517 | Replaces exactly the bytes from the offset on, growing the file as needed; every other file, ownership and the inodes on the disk stay consistent; a request past the end, past MAXFILE blocks or wrapping around is refused and changes nothing; every changed block is logged |
| `FileSystem.FileSystem.FreeDirect` | kernel/fs.c:416-421 | Frees the direct blocks, each once, logging only bitmap blocks |
| `FileSystem.FileSystem.FreeIndirect` | kernel/fs.c:423-433 | Frees every block the indirect block lists, then itself, each once |
| `FileSystem.FileSystem.Itrunc` | kernel/fs.c:409-437 | Never frees a free block; the file is empty; exactly the blocks of the file become free; every other file is as it was; every changed block is logged |
| `FileSystem.FileSystem.Filewrite` | kernel/file.c:134-181 | The request cut into transactions writes what one write would; an offset past the end of the file changes nothing and gives -1 for every non-empty request; it succeeds in full when the source and MAXFILE allow; no transaction logs more than MAXOPBLOCKS blocks |
| `FileSystem.ChunkBudget` | kernel/file.c:149-167 | A transaction of at most three blocks of bytes logs at most seven blocks when there is one bitmap block |
| `CrashFs.CrashKeepsIntact` | kernel/log.c:116-123 | In every state of every run: if the operations of each committed group take a consistent file system to a consistent one, a crash now and recovery leave a consistent file system |
| `CrashFs.IdleIsIntact` | kernel/log.c:116-123 | Whenever nothing uncommitted is logged, after recovery or after a commit, what the cache shows is a consistent file system |
| `CrashFs.IntactFrame` | kernel/fs.h:14-24 | Consistency does not depend on boot block, superblock and log |
| `CrashFs.LoggedIsAll` | kernel/log.c:214-235 | If every changed block was logged, replaying the logged blocks as they ended up gives the new disk |
| `CrashFs.Transact` | kernel/file.c:149-167 | A chunk of filewrite, or itrunc, takes a consistent file system to a consistent one; its logged writes are all it did, avoid the log area and keep the budget of MAXOPBLOCKS |
| `CrashFs.Serve` | kernel/file.c:134-181 | Any sequence of such requests logs what CrashKeepsIntact asks for, and replaying it gives the disk they left |
| `CrashFs.ServedSurvives` | kernel/log.c:55-123 | Where the committed groups are whole requests in order, as `CrashRuns.GroupsAreOperations` shows of runs: a crash and recovery leave the consistent file system after exactly the requests in those groups |
| `CrashRuns.GroupsAreOperations` | kernel/log.c:125-203 | In every run, crashes included, whose operations take turns with their writes and each leave the file system consistent if they found it so: the committed groups are whole operations one after the other, and none between them breaks the file system |
| `CrashRuns.CrashAnywhere` | kernel/log.c:55-203 | In every such run a crash at the end of it and recovery leave the consistent file system after exactly the operations committed |
| `CrashSession.OneRequest` | kernel/log.c:125-203 | An operation that logs at most MAXOPBLOCKS different blocks runs from begin_op to the end of its commit without a panic, and the cache then shows all it wrote |
| `CrashSession.Session` | kernel/file.c:149-167 | Requests served by the file system code from any idle point of such a run on, each in its own operation: every commit completes, the cache then shows the file system that the code built, and whichever step the power fails after, recovery leaves a consistent file system |
| `Mkfs.Image.constructor` | mkfs/mkfs.c:108-115 | A zeroed image with a superblock is sound: no block handed out, every inode empty |
| `Mkfs.Image.Grow` | mkfs/mkfs.c:268-283 | The next block goes into the empty slot as the kernel allocator would do it; gives up if and only if none is left |
| `Mkfs.Image.SlotBlock` | mkfs/mkfs.c:268-283 | A slot in use is kept; an empty one takes exactly one block |
| `Mkfs.Image.BlockFor` | mkfs/mkfs.c:266-283 | The block of the file, taking one or two new blocks exactly as slots are empty; no byte of the file changes; gives up if and only if too few are left |
| `Mkfs.Image.Rinode` | mkfs/mkfs.c:198-209 | The inode as it was last written |
| `Mkfs.Image.Winode` | mkfs/mkfs.c:184-196 | The same effect on the image as the kernel iupdate |
| `Mkfs.Image.Iappend` | mkfs/mkfs.c:252-294 | The bytes go to the end of the file and no other file changes; it finishes if and only if the file stays within MAXFILE blocks and the blocks it needs are left, and takes exactly those |
| `Mkfs.Image.Ialloc` | mkfs/mkfs.c:220-232 | The next inode, empty, with its type and one link |
| `Mkfs.NewInodeOnDisk` | mkfs/mkfs.c:220-232 | A new inode on the disk has its type in the first two bytes, one link in bytes 6 and 7, and zeroes elsewhere |
| `Mkfs.Image.FixRoot` | mkfs/mkfs.c:163-168 | The image is consistent afterwards, for some assignment of blocks to files, if and only if the directory did not fill its blocks exactly; then the directory reads as before followed by zeroes |
| `Mkfs.Image.Balloc` | mkfs/mkfs.c:234-248 | The bitmap marks exactly the blocks handed out |
| `Mkfs.Image.AddFile` | mkfs/mkfs.c:150-158 | One more directory entry and one more file with exactly the bytes that were read; it finishes if and only if both fit |
| `Mkfs.AddRoot` | mkfs/mkfs.c:117-129 | The root directory holds its two entries |
| `Mkfs.AddFiles` | mkfs/mkfs.c:130-161 | Every file is copied and listed; finishes if and only if everything fits |
| `Mkfs.ListingIs` | mkfs/mkfs.c:117-158 | Every entry of the root directory reads back: the directory itself under . and .., then each file with its inode number, low byte first, and its name |
| `Mkfs.Finish` | mkfs/mkfs.c:163-172 | What is left on the disk is a consistent file system, for some assignment of blocks to files, if and only if the number of entries is not a multiple of 64 |
| `Mkfs.Build` | mkfs/mkfs.c:68-173 | mkfs finishes if and only if directory and files fit the image; then the image meets the invariant that every kernel file system operation keeps, with each file in its inode and the directory listing them, if and only if the number of entries is not a multiple of 64 |
| `Mkfs.FullDirectory` | mkfs/mkfs.c:163-168 | 62 empty files with this layout of 1000 blocks and 200 inodes: mkfs finishes and what is on the disk is not a consistent file system, whatever blocks are taken to belong to which file |
| `PageTable.GrownTree` | kernel/vm.c:80-98 | Hanging a blank table into the tree keeps it a tree and changes no translation |
| `PageTable.LeafSetTree` | kernel/vm.c:137-160 | Setting one last-level entry changes the translation of that page only |
| `PageTable.UserUnmapped` | kernel/vm.c:165-187 | Clearing an entry, with its frame given back or not, keeps the frames mapped once, not free and not tables |
| `PageTable.HardwareAgrees` | kernel/riscv.h:348-357 | Following three indices of nine bits through the words in memory, as the hardware does, finds for every page exactly the entry that the model gives |
| `Vm.Memory.constructor` | kernel/kalloc.c:33-40 | The free list holds every page of the range exactly once |
| `Vm.Memory.Kfree` | kernel/kalloc.c:46-63 | The page becomes the head of the free list; panics if and only if it is outside the range |
| `Vm.Memory.Kalloc` | kernel/kalloc.c:68-82 | Takes the head of the free list, or returns 0 if and only if it is empty |
| `Vm.Memory.AddTable` | kernel/vm.c:86-94 | A page from the free list becomes a blank table; no translation changes |
| `Vm.Memory.Walk` | kernel/vm.c:80-98 | The last-level table and index of the page, by the words in memory: the table that entry va[38:30] of the root and entry va[29:21] of the next lead to, at index va[20:12]; with alloc, missing tables are added from the free list and no translation changes; without it nothing changes |
| `Vm.Memory.MapOne` | kernel/vm.c:149-153 | One page mapped, the rest unchanged; panics only on a page that is mapped |
| `Vm.Memory.Mappages` | kernel/vm.c:137-160 | Maps exactly the pages of the range to consecutive frames, or stops when tables run out; panics only on a remap or an empty range |
| `Vm.Memory.UnmapOne` | kernel/vm.c:174-186 | One translation removed, its frame given back if asked; panics if and only if the page is not mapped |
| `Vm.Memory.Uvmunmap` | kernel/vm.c:165-187 | Removes exactly npages translations and gives each frame back once; panics if and only if the address is unaligned or a page is not mapped |
| `Vm.Memory.MapPage` | kernel/vm.c:137-160 | mappages of a single page |
| `Vm.Memory.PutFrame` | kernel/vm.c:230-242 | A frame of its own with the wanted content mapped, or everything but tables undone |
| `Vm.Memory.MapFrame` | kernel/vm.c:236-241 | The frame is mapped, or given back |
| `Vm.Memory.Uvmdealloc` | kernel/vm.c:250-262 | Removes exactly the pages between the two sizes and gives back their frames; nothing happens when the new size is not smaller |
| `Vm.Memory.Shrink` | kernel/vm.c:232-241 | Undoes a growth that failed half way |
| `Vm.Memory.Uvmalloc` | kernel/vm.c:220-244 | Adds exactly the pages between the two sizes, zeroed, each with a frame of its own, accounting for every page that left the free list; on failure translations are as before and all frames are back |
| `Vm.GrownMeans` | kernel/vm.c:221-244 | After growth the hardware translates every new address to a page of zeroes that was free before, readable, writable, executable and open to the user |
| `Fork.Walkaddr` | kernel/vm.c:103-121 | The physical address of a valid user page, 0 otherwise |
| `Fork.CopyPage` | kernel/vm.c:308-322 | One round of uvmcopy |
| `Fork.Uncopy` | kernel/vm.c:325-327 | Everything the child was given is given back |
| `Fork.Uvmcopy` | kernel/vm.c:300-328 | The child gets at every page below sz a frame of its own with the content and permissions of the parent, or everything but tables is undone; the parent space is untouched and the two share no page |
| `Fork.CopyMeans` | kernel/vm.c:300-328 | After a successful copy parent and child translate each page with the same permissions to different frames of equal content |
| `Teardown.Freewalk` | kernel/vm.c:266-282 | Gives back every table below exactly once; panics if and only if a leaf is still mapped below |
| `Teardown.Uvmcreate` | kernel/vm.c:191-200 | A space of one blank table, or nothing if and only if no page is free |
| `Teardown.Uvmfree` | kernel/vm.c:286-292 | Gives back every frame and every table once; panics if and only if a page beyond the size is still mapped |
| `Teardown.ProcPagetable` | kernel/proc.c:180-209 | A space with the trampoline, readable and executable, on the highest page, the trapframe, readable and writable, below it, neither open to the user, and nothing else; or every page back where it was |
| `Teardown.ProcFreepagetable` | kernel/proc.c:213-219 | Gives back every page of the space exactly once; panics if and only if trampoline or trapframe is missing or a page beyond the size is mapped |
| `Teardown.Growproc` | kernel/proc.c:261-277 | Never panics and keeps the space in order; on success the size changes by n if and only if the 32-bit sum does not wrap, otherwise not at all; failure changes nothing |
| `Teardown.ShrinkPastZero` | kernel/proc.c:261-277 | A new process that has grown by one page and gives back one byte more than it has: growproc reports success and the size stays |
| `Teardown.Lifetime` | kernel/proc.c:180-277 | proc_pagetable, any sequence of growprocs, proc_freepagetable: nothing panics, the free list is a permutation of what it was, and no page outside it was written |
| `ProcInvariant.InvPreserved` | kernel/proc.c:514-811 | Every step of every CPU keeps the invariant on locks, interrupt depth, program counters and process states |
| `ProcInvariant.RunInv` | kernel/proc.c:514-811 | The invariant holds in every run |
| `ProcInvariant.OneCpuPerProcess` | kernel/proc.c:514-716 | In every run from boot a process is on at most one CPU; RUNNING means its thread is on a CPU or about to be switched to; on its way off it holds its own lock, which never has two holders |
| `ProcInvariant.NoPanic` | kernel/proc.c:687-705 | In every run no acquire, release or sched panics, and no exited process runs again |
| `ProcWakeup.NoLostWakeup` | kernel/proc.c:741-787 | In every run, when wakeup has passed over the table no other process is asleep on the channel or on its way to sleep |
| `ProcSleepLock.OneHolder` | kernel/sleeplock.c:21-41 | In every run a sleep-lock has at most one holder, and has one if and only if it is locked |
| `ProcWait.NoSleepBesideZombie` | kernel/proc.c:351-439 | In every run, whenever nobody holds wait_lock, no process sleeps in wait, or is on its way to, while a child of it has exited: exit wakes its parent, and reparent wakes init |
| `ProcWait.NoSleepBesideFreeLock` | kernel/sleeplock.c:21-41 | In every run, whenever nobody holds its inner lock, no process sleeps for a sleep-lock that is free |
| `ProcWait.WaitGivesUp` | kernel/proc.c:396-440 | In every run a wait that returns without a child has none or its process was killed; one that goes to sleep has no exited child and was not killed |
| `ProcWait.KillMarks` | kernel/proc.c:792-811 | In every run a kill that has found its victim has marked the process with that pid and left it awake |
| `ProcWait.WokenForAReason` | kernel/proc.c:772-811 | In every run a process stops sleeping only by a wakeup on the channel it sleeps on or by a kill of its own pid |
| `ProcLoops.LooksEverywhere` | kernel/proc.c:104-119 | In every run a fork that finds no slot has found each slot in use since it began, and a kill that finds nobody has found another pid in each |
| `ProcKill.NewbornAlive` | kernel/proc.c:120-177 | In every run in which nobody calls kill(0), a process is not killed when it is made |
| `ProcKill.KilledAtBirth` | kernel/proc.c:792-811 | In every run a process is killed when it is made if and only if its slot was marked while unused, and only a kill(0) marks an unused slot |
| `ProcKill.DoomedChild` | kernel/proc.c:792-811 | From boot: init calls kill(0), then forks, and the child is killed as soon as it is made |
| `ProcFamily.ParentsAreAlive` | kernel/proc.c:281-391 | In every run a process that has come to life, other than init, has a live parent; an exited process is nobody's parent |
| `ProcFamily.OrphansGoToInit` | kernel/proc.c:334-345 | In every step of every run the parent of a process that has come to life changes only from an exiting process, by its own doing, to init; otherwise the slot is freed |
| `ProcFamily.ReapedByParent` | kernel/proc.c:395-440 | In every run wait frees a slot only if its process has exited, is off every CPU, and is a child of the caller at that moment |
| `ProcFamily.ReapedOnce` | kernel/proc.c:395-440 | In every run no pid is reaped twice |
| `Mlfq.Scheduler.Age` | kernel/proc.c:641-648 | Exactly the runnable processes below the top queue that waited over 15 ticks rise one queue and are stamped |
| `Mlfq.Scheduler.Select` | kernel/proc.c:650-657 | The first of the runnable processes that none goes ahead of, by queue and then by stamp; none if and only if none is runnable |
| `Mlfq.Scheduler.Pass` | kernel/proc.c:634-676 | Ageing, selection and the switch together |
| `Mlfq.Scheduler.TimerInterrupt` | kernel/trap.c:85-94 | Once the time slice of 1, 2, 4, 8 or 16 ticks of its queue is over, and not before, the process becomes runnable one queue lower, or in the lowest, with the current tick as its stamp |
| `Mlfq.StepOk` | kernel/proc.c:634-676 | Every step keeps queues in range; stamps never run ahead of the clock or go back |
| `Mlfq.RunOk` | kernel/proc.c:634-676 | Queues stay in range in every run |
| `Mlfq.AheadAtMostOnce` | kernel/proc.c:650-672 | While a process waits in queue 0, its tick over, every other slot is picked ahead of it at most once |
| `Mlfq.BoundedBypass` | kernel/proc.c:650-672 | While a process waits in queue 0, its tick over, there are at most as many passes as slots with an older or equal stamp, at most NPROC-1 |
| `Mlfq.AgeingRises` | kernel/proc.c:641-648 | A process that waits unpicked rises one queue for every pass that finds it waiting too long, no more and no less |
| `Mlfq.QueueLaw` | kernel/trap.c:85-94 | In every run the queue of a process falls by one for every time slice it uses up above the lowest queue, rises by one for every pass that finds it waiting too long, and never changes otherwise |
| `Mlfq.CountsKept` | kernel/proc.c:660-670 | In every run ntime counts the times a process was picked, and qticks[q] a whole time slice for each time it was picked in queue q |
| `Mlfq.BoundedWait` | kernel/proc.c:634-676 | If the scheduler makes a pass at least every g ticks, a runnable process in queue q is picked within q * (MAXAGE + g) + g * NPROC ticks, whatever the others do |
| `MlfqPace.ClockKeepsPace` | kernel/trap.c:77-95 | When every process that runs at a tick is interrupted before the next, and no tick goes by with all CPUs idle and no pass made, a pass is made at least every 16 ticks |
| `MlfqPace.NoStarvation` | kernel/proc.c:634-676 | From boot, with such a clock, a process that is runnable in queue q at any point of the run is picked within q * (MAXAGE + 16) + 16 * NPROC ticks, whatever the others do |
| `MlfqBypass.Overtaken` | kernel/proc.c:650-672 | Within the tick of its stamp a process in queue 0 can be passed over any number of times if some lower slot can get into queue 0 in that tick |
| `MlfqBypass.NotOvertaken` | kernel/proc.c:650-672 | If none can, at most 2 * (NPROC - 1) passes are made before it is picked |
| `MlfqBypass.BypassExact` | kernel/proc.c:634-676 | The passes before a process in queue 0 is picked are bounded if and only if the tick of its stamp is over or no lower slot can get into queue 0 within it: being there, being aged into it, or being forked into |
| `MlfqBypass.SlotZero` | kernel/proc.c:650-672 | Slot 0 always keeps the bound |
| `MlfqBypass.PassedOver` | kernel/proc.c:634-676 | From boot, the first child of init is runnable in queue 0 and sees n passes without being picked, for every n |
| `Virtio.Disk.constructor` | kernel/virtio_disk.c:125-138 | All descriptors free, both rings empty, nobody waiting |
| `Virtio.Disk.AllocDesc` | kernel/virtio_disk.c:143-154 | A free descriptor, or -1 if and only if there is none |
| `Virtio.Disk.FreeDesc` | kernel/virtio_disk.c:156-170 | Frees and zeroes the descriptor and wakes whoever waits for one; panics if and only if it is out of range or free |
| `Virtio.Disk.Alloc3Desc` | kernel/virtio_disk.c:187-201 | Three distinct descriptors, or nothing changed if fewer than three are free |
| `Virtio.Disk.GiveBack` | kernel/virtio_disk.c:194-198 | The descriptors taken so far are free again |
| `Virtio.Disk.FreeChain` | kernel/virtio_disk.c:172-185 | Frees exactly the three descriptors of the request, without a panic |
| `Virtio.Disk.Format` | kernel/virtio_disk.c:223-257 | The three descriptors describe the request and chain in order; the others are untouched |
| `Virtio.Disk.Submit` | kernel/virtio_disk.c:203-269 | A new request, queued exactly once, or nothing changed and the process asleep when descriptors are short; nobody sleeps while three are free |
| `Virtio.Disk.DeviceFetch` | kernel/virtio.h:60-66 | The device takes chains from the available ring in order, each once |
| `Virtio.Disk.Carry` | kernel/virtio_disk.c:223-257 | A device that follows VirtIO 1.1, reading nothing but descriptors and headers, carries out the request that the driver laid out |
| `Virtio.Disk.DeviceComplete` | kernel/virtio.h:68-79 | The device finishes fetched requests in any order and reports each in the used ring; a write has then put the buffer on the disk and a read the block into the buffer, and nothing else has changed |
| `Virtio.Disk.IntrOne` | kernel/virtio_disk.c:300-312 | One report: the buffer it belongs to is handed back, no other |
| `Virtio.Disk.Intr` | kernel/virtio_disk.c:282-315 | Every request the device is done with is reported, without a panic |
| `Virtio.Disk.Finish` | kernel/virtio_disk.c:271-280 | The request is gone, its descriptors are free, and nobody sleeps for them |
| `Virtio.WrapDiffers` | kernel/virtio_disk.c:300 | 16-bit ring indices tell empty from not empty in spite of wrapping |
| `Virtio.ExactlyOnce` | kernel/virtio_disk.c:203-315 | In every state of every interleaving each request ever made has been reported exactly once, or is one of at most two unfinished ones whose buffer is still busy |
| `Pipe.Pipe.constructor` | kernel/pipe.c:22-46 | An empty pipe with both ends open |
| `Pipe.Pipe.Close` | kernel/pipe.c:58-74 | Closes one end and wakes the other side; frees the pipe if and only if both are closed |
| `Pipe.Pipe.Write` | kernel/pipe.c:76-103 | Stores exactly the next bytes of the source, in order; sleeps only on a full pipe with a reader left; returns -1 if and only if no reader is left or the process is found killed; readers stay served except in exactly one case, stated on the arguments |
| `Pipe.Pipe.Read` | kernel/pipe.c:105-130 | Returns exactly the next bytes stored, as many as wanted, available and copyable; sleeps if and only if the pipe is empty with a writer left; 0 means end of file; nobody is left asleep wrongly |
| `Pipe.Compare` | kernel/pipe.c:88-121 | The 32-bit counters tell full and empty apart in spite of wrapping |
| `Pipe.StrandedReader` | kernel/pipe.c:83-87 | A run that ends with a reader asleep next to a byte |
| `Heap.Allocator.constructor` | user/umalloc.c:21-22 | No memory and no list yet |
| `Heap.Allocator.FindPlace` | user/umalloc.c:30-32 | The position of the block on the address-ordered ring |
| `Heap.Allocator.Free` | user/umalloc.c:24-44 | The block leaves the live ones and joins the free list, merged with free neighbours; every unit sbrk supplied stays in exactly one block; a block of its size is available |
| `Heap.Allocator.Link` | user/umalloc.c:33-43 | Merging with either neighbour keeps ring, order, gaps and ownership of units |
| `Heap.Allocator.Morecore` | user/umalloc.c:46-61 | At least the units asked for are added to the free list, or nothing changes; from 2^31 bytes on the header that is written claims units beyond the end of memory |
| `Heap.Allocator.Take` | user/umalloc.c:75-84 | The block, or its tail end, becomes live with exactly the units asked for |
| `Heap.Allocator.Start` | user/umalloc.c:70-73 | The list of the static header alone |
| `Heap.Allocator.Malloc` | user/umalloc.c:63-90 | A new live block of exactly the units for the request, without sbrk if any free block is large enough, with one call otherwise; 0 only if that call fails; other blocks are untouched. A request that takes 2^31 bytes or more with its header is never met, and writes a header for units that sbrk did not supply |
| `Heap.HugeRequest` | user/umalloc.c:46-61 | A request for 2^31 bytes on a new heap writes a header that claims them beyond the end of memory |
| `Heap.NoOverlap` | user/umalloc.c:24-90 | Blocks, free or live, never overlap |
| `Heap.SizeFits` | user/umalloc.c:11-17 | Every size fits its 32-bit field |
| `Heap.SizesAddUp` | user/umalloc.c:24-90 | The sizes of all blocks add up to what sbrk supplied |
| `Heap.PayloadIsTheProgram` | user/umalloc.c:24-90 | The program may write anything into its blocks, link field included, without harm to the allocator |
| `ShellSyntax.PrintParse` | user/sh.c:327-446 | Every command tree with fewer than ten words in a simple command can be written, and parsing gives it back |
| `ShellSyntax.ItemsParsed` | user/sh.c:415-446 | Words and redirections in any order parse to the command with the words in order and the redirections around it in order |
| `ShellSyntax.ParsesWhatIsWritten` | user/sh.c:327-446 | Everything the grammar allows is accepted and gives the command that was meant |
| `ShellSyntax.ParsesNothingElse` | user/sh.c:327-446 | Whatever is accepted is something the grammar allows |
| `ShellSyntax.PanicsExactly` | user/sh.c:327-446 | The parser panics exactly on what the grammar does not allow |
| `ShellLex.LexLaid` | user/sh.c:265-308 | Tokens laid out with any white space, or none where none is needed, are read back |
| `ShellLex.LaidOut` | user/sh.c:265-308 | Every line is its tokens, laid out |
| `ShellLex.ParsesExactly` | user/sh.c:265-446 | A line is accepted with a command if and only if it stands for that command: some way the grammar allows to write it, laid out |
| `ShellLex.RoundTrip` | user/sh.c:265-446 | Lexing and parsing the printed text of a command tree gives the tree |
| `Shell.Parser.constructor` | user/sh.c:327-333 | The parser stands at the start of the line |
| `Shell.Parser.Blanks` | user/sh.c:271-272 | Skips exactly the white space |
| `Shell.Parser.Gettoken` | user/sh.c:265-308 | Returns the next token of the line and its span, and moves past it |
| `Shell.Parser.Peek` | user/sh.c:310-320 | Whether the next token starts with one of the characters; skips only blanks |
| `Shell.Parser.ParseRedirs` | user/sh.c:374-397 | Agrees with the parser on tokens, spans standing for words |
| `Shell.Parser.ParseArgs` | user/sh.c:429-444 | The argument loop agrees with the parser on tokens that `ShellSyntax.ItemsParsed` is about, panics included |
| `Shell.Parser.ParseExec` | user/sh.c:415-446 | Agrees with the parser on tokens that `ShellSyntax.ParsesWhatIsWritten` and `ParsesNothingElse` are about, panics included |
| `Shell.Parser.ParseBlock` | user/sh.c:399-413 | Agrees with the parser on tokens that `ShellSyntax.ParsesWhatIsWritten` and `ParsesNothingElse` are about, panics included |
| `Shell.Parser.ParsePipe` | user/sh.c:361-372 | Agrees with the parser on tokens that `ShellSyntax.ParsesWhatIsWritten` and `ParsesNothingElse` are about, panics included |
| `Shell.Parser.ParseLine` | user/sh.c:344-359 | Agrees with the parser on tokens that `ShellSyntax.ParsesWhatIsWritten` and `ParsesNothingElse` are about, panics included |
| `Shell.Parser.ParseCmd` | user/sh.c:327-342 | Agrees with the parser on tokens, leftover tokens included |
| `Shell.Nulterminate` | user/sh.c:448-493 | Writes terminators after exactly the strings of the tree and changes nothing else but separators |
| `Shell.ReadsTree` | user/sh.c:448-493 | After termination every string of the tree reads from the buffer as its token |
| `Shell.Parsecmd` | user/sh.c:327-342 | The line is accepted if and only if it stands for a command, and the tree read from the buffer in place is then exactly that command; the printed form of a tree gives that tree back |

## Left out

- Not modelled: directories, path lookup, inode allocation and reference counts in `kernel/fs.c`, `kernel/file.c` beyond
  filewrite, `exec`, system-call plumbing, the console, the tracing and time-keeping system calls (`trace`,
  `waitx`, `procdump`), and user programs other than the shell's parser and malloc.
- FCFS and PBS: `ProcMachine` lets the scheduler try any process, so the safety results cover them; only MLFQ's choice
  is modelled.
- `MlfqPace`: that timer interrupts reach every CPU once a tick, and that an idle CPU keeps making passes, are hypotheses on the run.
- `Mlfq`: a pass is one step; in the source another CPU can take the chosen process between selection and
  the acquire of its lock, and the pass then changes nothing but the ageing. Tick counters are unbounded
  numbers, while `ticks` and `last_qtime` are 32 bits wide.
- `ProcMachine`: spin locks other than process, wait and sleep-lock locks are taken one at a time; `allocpid` is one step;
  interrupt enabling is modelled by the nesting depth `noff` only.
- `ProcWakeup`, `ProcWait`, `ProcInvariant`: safety only; that a waiting process eventually runs is shown for MLFQ alone. The exit
  status that wait hands over is not modelled.
- FileSystem.FileSystem.Readi: does not model a copy that fails inside a chunk, because a chunk is copied whole or not at all; `either_copyout` and
  `copyout` are not modelled.
- FileSystem.FileSystem.Writei: does not model a copy that fails inside a chunk, because a chunk is copied whole or not at all.
- FileSystem.FileSystem.Filewrite: requires fewer than 2^31 bytes, because the count is a signed 32-bit number in the source.
- FileSystem.FileSystem.Iupdate: does not interpret type, device numbers and link count, because the model keeps them as two words.
- `CrashRuns`: operations may overlap, but one that has let another write does not write again before its commit; operations that
  interleave their writes, say to the bitmap, are not covered.
- CrashFs.ServedSurvives: takes as given that groups are whole requests in order, because `CrashRuns.GroupsAreOperations` derives it from runs.
- CrashFs.Transact: does not model more than three blocks of bytes at once, because filewrite never asks for more.
- `CacheRoom`: threads other than the one that commits are counted as users of buffers, without a bound on how many they hold.
- Vm.Memory.Kfree: does not detect a double free, because the source does not; callers are proved not to make one.
- Vm.Memory.Uvmalloc: states that a panic means a page was already mapped, and not the converse, because memory can run out before that page is reached.
- Fork.Uvmcopy: states that a panic means a page is missing in the parent or mapped in the child, and not the converse, because memory can run out first.
- Virtio.Disk.DeviceComplete: does not model a device that reports failure, because the source panics on it; queue setup through device registers is not modelled.
- Heap.Allocator.Malloc: does not model what follows once a header claims memory that sbrk did not supply, because the program then runs outside its memory; sbrk
  is taken to return aligned addresses above the old break, and a process to stay below 2^31 bytes, since physical memory is 128 MB.
- Shell.Parsecmd: does not model a failing malloc in the command constructors, because the source does not check for it; command nodes are values, so that `argv` being
  filled in while redirections already point to the node is not modelled.
- Mkfs.Image.Ialloc: requires an inode to be left, because the source does not check; file names and the reading of files are parameters.
- Mkfs.Build: requires the inodes to suffice and one bitmap block, because the source has exactly one and checks neither.
- Pipe.Pipe.Write: takes as parameters how far the source can be copied and when the process is found killed, because both come from outside.
