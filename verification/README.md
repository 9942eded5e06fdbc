# A verified model of the xv6 kernel's core

xv6 is a small Unix-like kernel for RISC-V. This project models the parts of it whose
correctness rests on an invariant that no single function shows: the crash-safe storage
stack and the program that makes its disk image, virtual memory and its page frames,
process life cycle and sleeping, the virtio disk queue, pipes, and three user programs
with real algorithms (the allocator, the shell's parser, grep).

How the model is organised:

- Code that updates things in place is a class with methods and loops; its `ensures` tie
  the new state to the old one. Invariants over that state are predicates on values, with
  one lemma for each kind of change.
- Code that several processes, CPUs, or a crash can interrupt is a step system: total step
  functions on a state, runs as sequences of events, and theorems about every state of
  every run. Spinlocks are atomic acquire and release steps; memory is sequentially
  consistent. Beside what no run can break stands what each call does when nothing disturbs
  it, from its first step to its last.
- A panic of the source is excluded: the precondition of a method says when it would
  happen, and callers are proved to meet it, or a theorem says the panic is unreachable.
- What the source takes from outside (whether user memory can be copied, whether sbrk
  grants memory, what the device does, when a crash comes) is a parameter or a step that
  may go either way.

| files | what they model |
|---|---|
| `Blocks`, `Sets`, `Division` | 1024-byte blocks read as bytes and as 32-bit words; set sizes; counters that wrap around |
| `LogSpec`, `Transactions`, `LogSpace` | the redo log on disk values; group commit and crashes over whole runs; log reservation |
| `BufferCache`, `Log`, `LogRuns` | `kernel/bio.c` and `kernel/log.c` as they run, and that they take the steps of `Transactions` |
| `Bitmap`, `FsBlocks`, `FsFiles`, `FsWrite`, `FsRead`, `FsTrunc`, `FsInodes` | block ownership, and files as byte sequences |
| `Mkfs` | the image that `mkfs` builds |
| `Dir`, `LinkCount`, `RootDir` | the directory tree and link counts; the 16-bit count; directories as bytes, as `mkfs` leaves them |
| `Frames`, `PageTables`, `Vm`, `FreeWalk`, `UserMemory` | page frames, Sv39 trees, user memory |
| `SleepLock`, `SleepCalls` | sleeping without lost wakeups, and what each call brings about |
| `Proc`, `ProcWait`, `ProcLife`, `ProcCalls` | fork, exit, wait and the scheduler; exit's wakeups and wait; who may change a process; what each call has done when it is through |
| `Virtio` | the disk queue, driver and device |
| `Pipe`, `Umalloc`, `ShellGrammar`, `Shell`, `Grep` | the ring buffer and the user algorithms |

## Results that the code does not meet everywhere

Each has a condition under which it holds, proved to be exact:

- `log_write`'s "too big a transaction" panic can be reached if and only if an operation
  may dirty MAXOPBLOCKS distinct blocks (`LogSpace.PanicIffCap`): the guard is
  `log.size - 1`, it is tested before absorption, and mkfs makes `log.size` equal to
  LOGSIZE. With nine blocks an operation it is unreachable.
- `writei` replaces just the bytes it counts, in every file, if and only if all of the
  source can be read, or none of it, or the readable part ends where a block of the file
  does (`FsWrite.ExactIff`). Otherwise `copyin` has stored a part of the next piece when it
  fails; the loop then lets the buffer go without `log_write`, and those bytes are in the
  file although the call does not count them. `FsWrite.PartialWrite` is such a call: a file
  of 1024 bytes, 200 bytes written at offset 0, the first 100 readable. For one file the
  condition is that the bytes were there already (`FsWrite.ExactFor`). For `filewrite`, which
  writes in transactions, it is `FsRead.FileExactIff`.
- So the buffer cache stays coherent when a buffer is let go if and only if the buffer is
  pinned or agrees with its block (`BufferCache.ReleaseIff`); after such a `writei` it may be
  neither (`LogRuns.Abandon`). If it is then recycled, readers see the old block again
  (`BufferCache.RecycleIff`).
- The link count is 16 bits wide. It is the number of links if and only if there are at
  most 32767 (`LinkCount.FitIff`), and `link` and `mkdir` keep it so if and only if the count
  was below that (`LinkCount.LinkFits`, `LinkCount.CreateFits`). `LinkCount.UnlinkPanicsIff`
  and `LinkCount.FreesLinkedIff` say when `unlink` panics and `iput` frees a linked inode;
  `LinkCount.OneTooMany` gives the first such count.
- The image that mkfs makes satisfies the directory code's invariant if and only if the
  files' names, cut to 14 bytes, are different and none is "." or ".."
  (`RootDir.ImageIsBuilt`), which mkfs does not check.
- `create` keeps the link accounting if and only if the parent is still linked
  (`Dir.CreatedBalanced`); `Dir.Uncounted` and `Dir.OutsideTree` say what goes wrong
  otherwise. So does `sys_link` (`Dir.LinkedBalanced`). `Dir.RemovedExists` shows a state
  in which they fail.
- The root directory that mkfs leaves has a hole if and only if its entries fill their last
  block, that is, if the number of files plus two is a multiple of 64
  (`Mkfs.Image.Build`), because the size is rounded up by a block in that case too.
- `malloc` asks sbrk for the memory it goes on to use if and only if the request is at most
  2^31 - 32 bytes (`Umalloc.AskFits`), because sbrk takes an int.
- `grep` reads its whole input if and only if no line fills its buffer (`Grep.Grep`). After
  a NUL it sees no newline any more, so what follows a NUL counts as one line.

## Model

| member | source | states |
|---|---|---|
| `LogSpec.HeaderRoundTrip` | kernel/log.c:86-114 | read_head gives back the list write_head encoded, for every list of up to LOGSIZE block numbers and whatever the header block held before |
| `LogSpec.InstallKeepsLog` | kernel/log.c:68-83 | installing any number of entries changes no block of the log itself |
| `LogSpec.RecoverTraceKeepsOutcome` | kernel/log.c:116-123 | every disk on the way of a recovery would itself recover to the same home blocks |
| `LogSpec.CrashChainKeepsOutcome` | kernel/log.c:116-123 | so would the disk after any number of recoveries that crashed in turn |
| `LogSpec.CommitAtomic` | kernel/log.c:178-203 | at every disk write of a commit, recovery gives the old home blocks before the header write and all of the transaction from it on |
| `LogSpec.CommitCrash` | kernel/log.c:193-203 | the same counted by writes done, including a crash before the first |
| `LogSpec.TransactionAtomic` | kernel/log.c:68-203 | for every transaction, every crash point of its commit and any number of further crashes during recovery, a finished recovery leaves none or all of the transaction and an empty log |
| `LogSpec.CommitOver` | kernel/log.c:193-203 | a finished commit leaves on disk exactly what the cache showed, and an empty log |
| `Transactions.RunInv` | kernel/log.c:126-235 | the invariant of group commit holds in every state of every run of begin, log_write, end, disk writes, commits and crashes |
| `Transactions.CrashOutcome` | kernel/log.c:116-203 | a crash in any such state recovers to the durable writes, played in order on the base disk |
| `Transactions.OperationsAtomic` | kernel/log.c:126-203 | a crash at any point of any run leaves the effect of a prefix of all writes, cut between operations and no shorter than the finished transactions |
| `Transactions.CommitAlone` | kernel/log.c:126-175 | in every run, while a commit is in progress no operation is outstanding, none starts and none logs a block |
| `Transactions.QuietIsDurable` | kernel/log.c:146-203 | in every run, when no operation is outstanding and no commit runs, the disk shows what the cache shows and nothing is left to write |
| `LogSpace.RunReserves` | kernel/log.c:126-142 | in every run the logged blocks plus what outstanding operations may still add stay within LOGSIZE - 2, if operations dirty fewer than MAXOPBLOCKS blocks |
| `LogSpace.NoPanic` | kernel/log.c:214-235 | then log_write never panics, though the guard is log.size - 1 |
| `LogSpace.PanicIffCap` | kernel/log.c:214-235 | on any clean disk with room, some run reaches the panic if and only if operations may dirty MAXOPBLOCKS blocks |
| `BufferCache.CachedOnce` | kernel/bio.c:58-89 | at most one buffer has a given identity, for a device other than 0 |
| `BufferCache.UnreferencedIsClean` | kernel/bio.c:71-82 | in a coherent cache a valid buffer without references equals its disk block |
| `BufferCache.RecycleCoherent` | kernel/bio.c:71-82 | recycling such a buffer keeps the cache coherent and the view of every block unchanged |
| `BufferCache.ReleaseIff` | kernel/bio.c:116-122 | letting go of a buffer, changed or not, leaves some coherent account of the cache if and only if the buffer is pinned or agrees with its block |
| `BufferCache.RecycleIff` | kernel/bio.c:71-82 | recycling a buffer keeps the view if and only if the buffer agrees with its block; in any case its block is then seen as it is on disk |
| `BufferCache.UpdateCoherent` | kernel/bio.c:92-151 | changing one buffer's contents, counts or disk block keeps coherence and every other block's view |
| `BufferCache.Unlink` | kernel/bio.c:126-128 | taking a node out leaves a well-formed ring of the rest |
| `BufferCache.PushFront` | kernel/bio.c:129-132 | linking it in behind the head gives a well-formed ring with it in front |
| `BufferCache.Bcache.constructor` | kernel/bio.c:36-53 | binit leaves a ring of all NBUF buffers and a cache that shows the disk |
| `BufferCache.Bcache.LookUp` | kernel/bio.c:63-70 | the walk over the ring finds the buffer of a block exactly if it is cached |
| `BufferCache.Bcache.FindUnused` | kernel/bio.c:72-83 | the backward walk finds the least recently used unreferenced buffer, or there is none |
| `BufferCache.Bcache.Bget` | kernel/bio.c:58-89 | the cached buffer gets a reference, else the least recently used free one is re-identified; it fails exactly if the block is not cached and every buffer is in use; the view is unchanged |
| `BufferCache.Bcache.Lock` | kernel/bio.c:70-70 | acquiresleep on a buffer in use keeps coherence and the view |
| `BufferCache.Bcache.Fill` | kernel/bio.c:92-103 | the holder then has what the cache shows for the block, read from disk if the buffer was not valid |
| `BufferCache.Bcache.Bwrite` | kernel/bio.c:106-112 | exactly one disk block is written, with the buffer's data |
| `BufferCache.Bcache.Unlock` | kernel/bio.c:119-122 | releasesleep leaves the view as it is, with the reference still counted; the cache stays coherent if and only if the buffer is pinned or agrees with its block |
| `BufferCache.Bcache.Drop` | kernel/bio.c:124-136 | one reference goes, even if another process has locked the buffer meanwhile; the buffer moves to the front exactly if it was the last |
| `BufferCache.Bcache.Bpin` | kernel/bio.c:139-144 | one more pin, the view unchanged |
| `BufferCache.Bcache.Bunpin` | kernel/bio.c:146-151 | one pin fewer, for a buffer that is clean |
| `Log.SomeBufferFree` | kernel/bio.c:71-88 | with fewer than NBUF blocks pinned and buffers in use or waited for, bget does not panic |
| `Log.ReaderStep` | kernel/bio.c:58-137 | each step of a process that only reads, before or after its turn on a buffer, keeps the state a commit runs in and changes neither the disk nor the view |
| `Log.Acquire` | kernel/bio.c:92-103 | bread beside other users of the buffer: it is locked and shows the block, and locked buffers of other blocks are as before |
| `Log.Release` | kernel/bio.c:116-137 | brelse gives back exactly the lock and the reference |
| `Log.EncodeHeader` | kernel/log.c:102-114 | the loop writes the header that the specification describes |
| `Log.DecodeHeader` | kernel/log.c:86-97 | the loop reads it |
| `Log.Log.WriteLog` | kernel/log.c:178-191 | write_log writes the cached contents of the logged blocks to the log in order and changes no home block, whatever readers do before each write |
| `Log.Log.WriteHead` | kernel/log.c:102-114 | one disk write, after which the header on disk is the list in memory |
| `Log.Log.InstallTrans` | kernel/log.c:68-83 | the disk goes through the installation of the entries one by one, each block being unpinned unless recovering, whatever readers do meanwhile |
| `Log.Log.Commit` | kernel/log.c:193-203 | with any steps of readers before each disk write, the disk goes through exactly a commit trace, so the atomicity theorems apply; afterwards nothing is logged or pinned |
| `Log.Log.Find` | kernel/log.c:224-227 | the absorption loop finds the block's position, or that it is not logged |
| `Log.Log.LogWrite` | kernel/log.c:214-235 | the block is logged once and pinned; the view is unchanged, and no buffer is locked, unlocked or given another identity; other processes may have any buffers in use |
| `Log.Log.EndOp` | kernel/log.c:146-175 | the last operation out commits, beside readers, and then the disk holds what the cache showed; any other operation touches no buffer |
| `Log.Log.Recover` | kernel/log.c:116-123 | recovery goes through exactly a recovery trace |
| `Log.Log.ReadHead` | kernel/log.c:86-97 | the list in memory becomes the one on disk, and the disk is unchanged |
| `LogRuns.Begin` | kernel/log.c:126-142 | begin_op gets past its tests exactly when the operation may begin in the runs of Transactions, and then it has begun there |
| `LogRuns.Update` | kernel/log.c:214-235 | changing a held buffer and calling log_write is a log_write step of such a run, and if every changed buffer was logged, every one is afterwards |
| `LogRuns.Abandon` | kernel/fs.c:522-525 | a buffer changed and let go without log_write, as when a copy fails, leaves the cache coherent if and only if the block is logged already or looks as it does on disk |
| `LogRuns.End` | kernel/log.c:146-203 | end_op, with its commit and readers beside it, is the end of the operation, the disk writes and the end of a commit of such a run |
| `LogRuns.CommitRuns` | kernel/log.c:193-203 | from every run that has begun a commit there is one that has finished it, so every call of the code extends a run |
| `LogRuns.Operation` | kernel/log.c:126-235 | one whole operation, from begin_op through its bread, log_write and brelse calls to end_op and the commit: from every run there is a longer one that ends in the state the code is in, with the operation over |
| `Bitmap.SetBitReads` | kernel/fs.c:75-78 | setting a bit sets that bit of the block and no other |
| `Bitmap.ClearBitReads` | kernel/fs.c:97-102 | clearing a bit clears that one and no other |
| `Bitmap.BitValue` | kernel/fs.c:73-102 | setting a clear bit k adds 2^k to the byte, and clearing a set one takes it away |
| `FsBlocks.Allocate` | kernel/fs.c:65-88 | marking and zeroing a clear block keeps exact ownership: the marked blocks are the metadata, the blocks named by inodes, each once, and those just allocated |
| `FsBlocks.Free` | kernel/fs.c:91-105 | a block about to be freed is marked, so "freeing free block" does not happen, and ownership stays exact |
| `FsBlocks.Attach` | kernel/fs.c:388-406 | putting an allocated block into an address of an inode keeps exact ownership |
| `FsBlocks.AttachEntry` | kernel/fs.c:407-415 | so does putting it into an entry of an indirect block |
| `FsBlocks.Detach` | kernel/fs.c:430-449 | clearing addresses makes exactly their blocks pending |
| `FsBlocks.GrowthKeepsBytes` | kernel/fs.c:382-421 | adding zeroed blocks changes no byte of any file |
| `FsFiles.Fs.FindFree` | kernel/fs.c:71-86 | the two loops find the first clear bit, or none is clear |
| `FsFiles.Fs.Balloc` | kernel/fs.c:65-88 | the first free block, marked and zeroed, no other data block touched; 0 exactly if the disk is full |
| `FsFiles.Fs.Bfree` | kernel/fs.c:91-105 | only the block's mark goes |
| `FsFiles.Fs.Bmap` | kernel/fs.c:382-421 | the block's address, the same as before if there was one; no byte of any file changes; 0 only if the disk is full; and which blocks it dirties |
| `FsWrite.WriteLoop` | kernel/fs.c:516-530 | the loop counts tot bytes and has put those in place; it stops early only for a full disk or an unreadable byte, and then the readable rest of the piece has been stored too, in a block that is not logged |
| `FsWrite.Writei` | kernel/fs.c:505-539 | fails exactly for a bad range; otherwise, with the first u bytes readable, how many bytes it counts and how many it stores, the file with both, the size as counted; no other file changes, no hole appears, and every changed block is logged but the one in which a copy failed |
| `FsWrite.ExactFor` | kernel/fs.c:516-539 | for one file: just the counted bytes are replaced if and only if the bytes stored and not counted were there already |
| `FsWrite.ExactIfAllCounted` | kernel/fs.c:516-539 | for every file: if and only if all stored bytes are counted |
| `FsWrite.ExactIff` | kernel/fs.c:516-539 | for every file, with room on the disk: if and only if all or none of the source is readable, or the readable part ends at a block boundary |
| `FsWrite.PartialWrite` | kernel/fs.c:522-525 | a call that counts nothing and changes the file |
| `FsRead.Readi` | kernel/fs.c:471-496 | 0 for a bad range; otherwise the bytes of the file at off, and it stops at n bytes, at the end of the file, at a hole on a full disk, or, with -1, exactly where the destination ends; on an inode without holes it allocates and dirties nothing |
| `FsRead.ChunkBudget` | kernel/file.c:145-158 | with one bitmap block, a chunk at any offset dirties at most seven distinct blocks |
| `FsRead.Filewrite` | kernel/file.c:134-181 | however it ends, the file is as after one write of the bytes stored, those up to the offset counted; how many those are; n is returned exactly if all are; with one bitmap block each transaction dirties at most seven blocks; and why it may stop |
| `FsRead.FileExactIff` | kernel/file.c:134-181 | filewrite replaces just the bytes it counts, in every file, if and only if all of the source is readable, or the readable part ends with a transaction or at a block boundary |
| `FsTrunc.FreeIndirect` | kernel/fs.c:437-449 | the indirect block and every block it lists become free, and no other |
| `FsTrunc.Itrunc` | kernel/fs.c:425-453 | the inode keeps no block and no byte, exactly its blocks are freed, every other file is untouched |
| `FsInodes.AllocatedOwn` | kernel/fs.c:65-105 | a block is marked exactly if it is metadata, just allocated by some process, or named by an allocated inode |
| `FsInodes.Ialloc` | kernel/fs.c:198-219 | the first free inode, cleared and typed, which names no block; or none is free |
| `FsInodes.Iput` | kernel/fs.c:336-362 | an inode without links has its blocks freed before it is; free inodes still name no block; other files are untouched |
| `Mkfs.Image.constructor` | mkfs/mkfs.c:93-113 | the empty image satisfies the invariant of the image being built |
| `Mkfs.Image.Ialloc` | mkfs/mkfs.c:220-232 | the next inode, with one link and no data |
| `Mkfs.Image.BlockFor` | mkfs/mkfs.c:266-284 | the address of the block, allocated with the indirect block if needed; no byte of any file changes; exactly the blocks counted are taken |
| `Mkfs.Image.AppendPiece` | mkfs/mkfs.c:264-290 | one round of the loop appends the piece to the inode's data and changes no other inode's |
| `Mkfs.Image.Iappend` | mkfs/mkfs.c:252-294 | the bytes are appended to the inode's data, and its size says so |
| `Mkfs.Image.FixRoot` | mkfs/mkfs.c:163-168 | the root's size becomes the next block boundary past its entries |
| `Mkfs.Image.Balloc` | mkfs/mkfs.c:234-248 | the bitmap marks exactly the blocks in use, so the kernel's ownership invariant holds |
| `Mkfs.RoundedFile` | mkfs/mkfs.c:163-168 | a file whose size was rounded so reads as its data and then zeros, and has a hole if and only if its data fills its last block |
| `Mkfs.Image.Build` | mkfs/mkfs.c:68-173 | the finished image satisfies the kernel's ownership invariant; every file reads as given and has no hole; the root reads as its entries; it has a hole exactly if the number of entries is a multiple of 64; no other inode is in use; and how many blocks are used |
| `RootDir.RootBack` | mkfs/mkfs.c:115-168 | the bytes of the root, read back entry by entry, are its two own entries, one for each file with its name cut to 14 bytes, and free slots |
| `RootDir.ImageIsBuilt` | mkfs/mkfs.c:68-173 | the image, read back as inodes and entries, is the first state of the directory code, and satisfies its invariant if and only if the names, as cut, are different and none is "." or ".." |
| `Dir.Dirs.constructor` | mkfs/mkfs.c:115-161 | the root and files that mkfs makes satisfy the invariant exactly if the names are different and none is "." or ".." |
| `Dir.BuiltIff` | mkfs/mkfs.c:115-161 | the tree and the link accounting hold in that first state if and only if the names are such |
| `Dir.RemovedExists` | kernel/sysfile.c:188-243 | there is a sound state with a removed directory in which create and link find room |
| `Dir.Dirs.DirLookup` | kernel/fs.c:551-575 | the first used slot with the name, or there is none |
| `Dir.Dirs.DirLink` | kernel/fs.c:579-606 | succeeds exactly if the name is new and the write succeeds; then the entry stands in the first free slot, or at the end if there is none |
| `Dir.Dirs.Ialloc` | kernel/fs.c:198-219 | a free inode, or none is free |
| `Dir.CreatedInv` | kernel/sysfile.c:245-302 | creating a file, device or directory in a linked directory keeps the tree and the link accounting |
| `Dir.Dirs.Create` | kernel/sysfile.c:245-302 | on every failure exit nothing has changed; when it fails; an existing file is returned as it is; a new inode has the kind asked for, its entry, its link count and, for a directory, its two entries and the parent's count |
| `Dir.CreatedBalanced` | kernel/sysfile.c:245-302 | a successful create keeps the accounting if and only if the parent is still linked |
| `Dir.Uncounted` | kernel/sysfile.c:281-291 | a file made in a removed directory counts a link that is not there |
| `Dir.OutsideTree` | kernel/sysfile.c:273-291 | a directory made in a removed directory leaves no tree at all |
| `Dir.Counting` | kernel/sysfile.c:145-167 | sys_link's count and its undoing keep the accounting, links not yet entered included |
| `Dir.Dirs.LinkBegin` | kernel/sysfile.c:123-147 | refuses a directory; otherwise the count is one up |
| `Dir.LinkedIn` | kernel/sysfile.c:147-153 | entering the new name keeps the tree and the accounting |
| `Dir.LinkedBalanced` | kernel/sysfile.c:147-153 | entering the new name keeps the tree and the accounting if and only if the directory is still linked |
| `Dir.Dirs.LinkEnd` | kernel/sysfile.c:147-170 | the entry is made, or the count goes back; and when; a new entry keeps the invariant exactly if the directory is still linked |
| `Dir.Dirs.IsDirEmpty` | kernel/sysfile.c:172-186 | true exactly if no slot after the first two is used |
| `Dir.UnlinkedInv` | kernel/sysfile.c:216-236 | removing an entry keeps the tree and the accounting, and the inode had a link, so the panic does not happen while the 16-bit count is exact |
| `Dir.Dirs.Unlink` | kernel/sysfile.c:188-243 | an entry goes, the name with it, and its inode's count, and for a directory the parent's too; on failure nothing changes; and when it fails |
| `Dir.Dirs.Iput` | kernel/fs.c:336-362 | freeing an inode without links keeps the tree and the accounting |
| `LinkCount.FieldWraps` | kernel/sysfile.c:145-297 | after any stores, increments and decrements the 16-bit field is the exact count, wrapped once |
| `LinkCount.FitIff` | kernel/fs.h:36-36 | every field is exact if and only if no inode has more than 32767 entries and links in progress |
| `LinkCount.LinkFits` | kernel/sysfile.c:145-145 | link keeps the fields exact if and only if the file had fewer than 32767 links |
| `LinkCount.CreateFits` | kernel/sysfile.c:273-287 | create keeps them exact if and only if it makes no directory, or the parent had fewer than 32767 links |
| `LinkCount.UnlinkFits` | kernel/sysfile.c:215-232 | unlink keeps them exact |
| `LinkCount.UnlinkPanicsIff` | kernel/sysfile.c:215-216 | the inode of an entry has a link, and the test panics all the same if and only if the count modulo 2^16 is 0 or above 32767 |
| `LinkCount.FreesLinkedIff` | kernel/fs.c:341-341 | the test for no links holds of a linked inode if and only if its links are a multiple of 2^16 |
| `LinkCount.OneTooMany` | kernel/sysfile.c:145-145 | the link after the 32767th makes the field -32768 |
| `Frames.AllocInv` | kernel/kalloc.c:68-82 | taking the head of the free list keeps every frame in exactly one role |
| `Frames.ReleaseInv` | kernel/kalloc.c:46-63 | so does putting a frame back |
| `Frames.SetEntryInv` | kernel/vm.c:158-158 | writing an entry that no frame is named by keeps the roles |
| `PageTables.IndexInjective` | kernel/riscv.h:353-357 | distinct pages have distinct index triples |
| `PageTables.Digits` | kernel/riscv.h:353-357 | the three indices are the digits of the page number, the highest at the top of the tree |
| `PageTables.BitsAre` | kernel/riscv.h:341-351 | V, R, W, X and U are bits 0 to 4 of an entry, and the frame number begins at bit 10 |
| `PageTables.BitsRoundTrip` | kernel/riscv.h:341-351 | a page-table entry is read back from its bits |
| `PageTables.FindNode` | kernel/vm.c:85-103 | the table a walk ends in is the one whose role is to serve that page |
| `PageTables.SetLookup` | kernel/vm.c:142-165 | setting an entry of a last-level table changes exactly one translation of one tree |
| `PageTables.AttachLookup` | kernel/vm.c:94-100 | hanging in an empty table changes no translation |
| `Vm.Kernel.Kalloc` | kernel/kalloc.c:68-82 | the head of the free list, or 0 exactly if it is empty |
| `Vm.Kernel.Kfree` | kernel/kalloc.c:46-63 | the frame is the new head of the free list |
| `Vm.Kernel.Walk` | kernel/vm.c:85-103 | the last-level table of the page; with alloc it fails only for want of frames; no translation changes |
| `Vm.Kernel.MapPage` | kernel/vm.c:151-163 | exactly one translation changes, or none does |
| `Vm.Kernel.Mappages` | kernel/vm.c:142-165 | exactly the range is mapped to consecutive frames; a failed one-page call changes no translation; it fails only with fewer than two free frames a page |
| `Vm.Kernel.UnmapPage` | kernel/vm.c:179-191 | one translation goes, and its frame goes back if asked |
| `Vm.Kernel.Uvmunmap` | kernel/vm.c:170-192 | exactly the range is unmapped, every other translation is as before |
| `Vm.Kernel.Uvmdealloc` | kernel/vm.c:255-267 | the pages above the new size, and only they, are unmapped and freed |
| `Vm.Kernel.Uvmalloc` | kernel/vm.c:225-249 | the new pages are zeroed, mapped and the tree's own, or none of them is mapped; three free frames a page suffice |
| `Vm.Kernel.Uvmcreate` | kernel/vm.c:196-205 | an empty tree, or no frame is free |
| `FreeWalk.Freewalk` | kernel/vm.c:271-287 | every table of the subtree and no other frame becomes free; the leaf panic is excluded |
| `UserMemory.Uvmfree` | kernel/vm.c:291-297 | every page and table of the tree becomes free, every other tree is as before |
| `UserMemory.Uvmcopy` | kernel/vm.c:305-333 | the child has a copy of every page in frames of its own, or no page at all; three free frames a page suffice |
| `UserMemory.Walkaddr` | kernel/vm.c:108-126 | the frame exactly if the page is a user page below MAXVA |
| `UserMemory.Copyout` | kernel/vm.c:351-371 | succeeds exactly if the whole range is user memory; writes exactly the bytes there, a prefix of them on failure |
| `UserMemory.Copyin` | kernel/vm.c:376-396 | succeeds exactly if the whole range is user memory, and stores the bytes there; on failure it has stored those before the first page that is not |
| `UserMemory.OutThenIn` | kernel/vm.c:351-396 | copyin after a successful copyout returns the same bytes, across page boundaries |
| `UserMemory.ProcPagetable` | kernel/proc.c:194-224 | a tree with just the trampoline, readable and executable, and the trapframe, readable and writable, neither for the user; on failure every frame has its old role; five free frames suffice |
| `UserMemory.ProcFreePagetable` | kernel/proc.c:228-234 | exactly the process's tables and pages become free |
| `UserMemory.Freerange` | kernel/kalloc.c:33-40 | exactly the whole frames of the range become free |
| `SleepLock.RunInv` | kernel/proc.c:553-622 | the invariant of sleep, wakeup, kill, acquiresleep and releasesleep holds after every sequence of events of any number of processes, each of which may sleep, wake and kill with the lock or without it |
| `SleepLock.NoLostWakeup` | kernel/sleeplock.c:21-41 | whenever the inner spinlock is free and the lock is not held, no process sleeps on it |
| `SleepLock.MutualExclusion` | kernel/sleeplock.c:21-41 | at most one process has the sleep lock, and the lock names it |
| `SleepLock.SpinlocksExclusive` | kernel/proc.c:553-598 | a process's spinlock has at most one holder, and none that is switched out |
| `SleepLock.HolderMaySleep` | kernel/virtio_disk.c:272-275 | the holder of the sleep lock can be asleep on another channel |
| `SleepCalls.WakeupReaches` | kernel/proc.c:584-598 | whatever runs beside it, a wakeup that has gone past a process which slept on its channel when it began has found it awake, or woken it |
| `SleepCalls.KillWakes` | kernel/proc.c:603-622 | in every run a kill that has found its victim leaves it awake |
| `SleepCalls.AcquireGets` | kernel/sleeplock.c:21-31 | acquiresleep of a lock that nobody has takes it, names the holder, and changes nothing else |
| `SleepCalls.AcquireSleeps` | kernel/sleeplock.c:21-31 | of a lock that somebody has, it sleeps on it, without the inner spinlock and with its own |
| `SleepCalls.ReleaseClears` | kernel/sleeplock.c:33-41 | releasesleep clears the lock and begins the wakeup of its sleepers |
| `SleepCalls.WakeupCall` | kernel/proc.c:584-598 | wakeup, undisturbed: exactly the other processes asleep on its channel are awake; releasesleep then gives up the inner spinlock |
| `SleepCalls.KillCall` | kernel/proc.c:603-622 | kill, undisturbed: its victim is awake if it slept, and nothing else changes |
| `SleepCalls.SleepLeaves` | kernel/proc.c:568-572 | a sleeper is off its CPU and its lock is free |
| `SleepCalls.SleepReturns` | kernel/proc.c:572-580 | once runnable it runs again, off its channel, and goes on to take the lock it slept for |
| `SleepCalls.YieldLeaves` | kernel/proc.c:520-528 | yield leaves the process runnable, off its CPU, its lock free |
| `SleepCalls.YieldReturns` | kernel/proc.c:520-528 | and it goes on where it was |
| `SleepCalls.SchedulePasses` | kernel/proc.c:462-490 | a scheduler leaves a process that is not runnable as it is |
| `SleepCalls.Begins` | kernel/sleeplock.c:21-41 | a process may begin each of these calls, with the lock or without it |
| `Proc.RunInv` | kernel/proc.c:297-528 | the life-cycle invariant holds after every sequence of events on any number of CPUs and processes |
| `Proc.RunningIffOnCpu` | kernel/proc.c:462-490 | whenever a process's lock is free it is RUNNING exactly if it is some CPU's c->proc, and no two CPUs have it |
| `Proc.NoOrphans` | kernel/proc.c:348-404 | no UNUSED or ZOMBIE process is anyone's parent |
| `Proc.ReapsOnlyTheDead` | kernel/proc.c:408-453 | the process that wait is about to free is a zombie child that has left its CPU |
| `Proc.ReapedOnce` | kernel/proc.c:408-453 | over every run the pids that wait returns are all different |
| `Proc.SchedCalledRight` | kernel/proc.c:499-517 | a process that enters the scheduler is not RUNNING and holds its own lock and no other, so sched's panics do not happen |
| `ProcLife.LifeCycle` | kernel/proc.c:297-622 | in every run, whatever step comes next, a process's parent, state and pid change only along the arrows of its life, and only by the one who may: parent to the maker in fork, to init in the parent's exit, to none in the parent's wait |
| `ProcLife.ChildOf` | kernel/proc.c:335-341 | from naming its parent until it is runnable, the process a fork makes is the child of the one that forks |
| `ProcLife.ForkDelivers` | kernel/proc.c:297-344 | in every run, the process that fork makes runnable is the child of the one that forked, and has the pid that was the next one when its slot was taken |
| `ProcLife.ScanEnds` | kernel/proc.c:418-452 | in every run, when wait has been through the table it knows whether it has a child, and none of its children is a zombie |
| `ProcCalls.Begins` | kernel/proc.c:365-371 | a process may begin fork, wait or exit, but init never begins exit |
| `ProcCalls.ForkCall` | kernel/proc.c:297-344 | fork, undisturbed: the first unused slot becomes a child of the caller, ready to run, with the next pid; nothing else changes |
| `ProcCalls.ForkFull` | kernel/proc.c:304-307 | with no slot free it fails, and nothing changes |
| `ProcCalls.ForkNoMemory` | kernel/proc.c:309-314 | without memory the slot is free again, and only a pid is used up |
| `ProcCalls.WaitCall` | kernel/proc.c:408-438 | wait, undisturbed: the first zombie child in the table is freed and its pid reported; nothing else changes |
| `ProcCalls.ReapSteps` | kernel/proc.c:426-437 | from a zombie child found, three steps leave its slot unused and without a parent, and its pid reported |
| `ProcCalls.WaitNoCopy` | kernel/proc.c:428-433 | if the status cannot be copied out, nothing changes |
| `ProcCalls.WaitFails` | kernel/proc.c:445-448 | without a zombie child it fails, and nothing changes, if there is no child or the process is killed |
| `ProcCalls.WaitSleeps` | kernel/proc.c:450-452 | otherwise it sleeps on its own channel, with its own lock and without wait_lock |
| `ProcCalls.WaitResumes` | kernel/proc.c:572-580 | once awake it gives up its lock and scans again, with wait_lock |
| `ProcCalls.WakeCall` | kernel/proc.c:584-598 | wakeup, undisturbed: exactly the other processes asleep on the channel become runnable |
| `ProcCalls.LookCall` | kernel/proc.c:584-622 | one look of any other wakeup, or of kill, at a process it is for leaves that one awake, and changes nothing else |
| `ProcCalls.ExitCall` | kernel/proc.c:345-404 | exit, undisturbed: the caller is a zombie, its children are init's, its parent is awake if it slept in wait, and so is init if it got a child; nothing else changes |
| `ProcCalls.SchedStarts` | kernel/proc.c:462-490 | a scheduler gives the CPU to a runnable process it finds, which goes on where it left off |
| `ProcCalls.SchedPasses` | kernel/proc.c:462-490 | it leaves any other process as it is |
| `ProcCalls.SchedLeaves` | kernel/proc.c:480-488 | and lets go of one that has given up the CPU |
| `ProcCalls.PauseCall` | kernel/proc.c:520-580 | yield leaves the process runnable and sleep leaves it asleep, its CPU back in the scheduler |
| `ProcCalls.PauseReturns` | kernel/proc.c:520-580 | once it runs again the process gives up its lock and goes on where it was |
| `ProcWait.RunWatch` | kernel/proc.c:345-453 | in every run a zombie that its parent has passed over in wait, or sleeps through, is being announced by a wakeup that has yet to reach the parent |
| `ProcWait.NoMissedChild` | kernel/proc.c:345-453 | in every run, whenever wait_lock is free, no process asleep in wait has a zombie child |
| `ProcWait.OwnChannel` | kernel/proc.c:451-451 | a process sleeps on the channel of a process exactly if it sleeps in wait, and then on its own |
| `Virtio.HoldsPush` | kernel/virtio_disk.c:255-265 | a new ring entry overwrites none still wanted, across 16-bit wrap-around |
| `Virtio.HoldsPop` | kernel/virtio_disk.c:310-324 | the next ring entry is the oldest one not consumed |
| `Virtio.AtMostTwo` | kernel/virtio_disk.c:201-213 | eight descriptors in disjoint chains of three are at most two requests |
| `Virtio.Disk.InFlight` | kernel/virtio_disk.c:215-327 | in every state at most two requests are in flight, and neither ring holds more |
| `Virtio.Disk.AllocDesc` | kernel/virtio_disk.c:156-166 | the first free descriptor, or there is none |
| `Virtio.Disk.Alloc3` | kernel/virtio_disk.c:201-213 | three distinct free descriptors exactly if there are three; otherwise those taken are free again |
| `Virtio.Disk.Submit` | kernel/virtio_disk.c:215-275 | the request becomes one more disjoint chain and is offered last; or the caller must sleep and no request has changed |
| `Virtio.Disk.Store` | kernel/virtio_disk.c:215-292 | a process may change a buffer that is in no request |
| `Virtio.Disk.DeviceTake` | kernel/virtio_disk.c:262-270 | the device takes the oldest offered request |
| `Virtio.Disk.DeviceComplete` | kernel/virtio_disk.c:222-253 | following the descriptors the device moves the right block in the right direction and reports the request, in any order |
| `Virtio.Disk.IntrOne` | kernel/virtio_disk.c:310-325 | one used entry is consumed and clears the busy mark of its own buffer only |
| `Virtio.Disk.Intr` | kernel/virtio_disk.c:294-327 | every finished request is acknowledged once, and no other |
| `Virtio.FreesItsChain` | kernel/virtio_disk.c:185-197 | freeing a chain changes the free flag of exactly its three descriptors |
| `Virtio.Disk.FreeChain` | kernel/virtio_disk.c:185-197 | the loop ends and frees the three descriptors linked from the head |
| `Virtio.Disk.Finish` | kernel/virtio_disk.c:277-291 | once the busy mark is clear the data has moved, the request is gone and its descriptors are free |
| `Pipe.Pipe.UsedIsExact` | kernel/pipe.c:88-114 | the wrapped counters tell exactly how many bytes are in the pipe, so both tests are exact across wrap-around |
| `Pipe.Pipe.Put` | kernel/pipe.c:95-95 | one byte is appended |
| `Pipe.Pipe.Get` | kernel/pipe.c:121-121 | the byte taken is the oldest one not yet taken |
| `Pipe.Pipe.WriteSection` | kernel/pipe.c:76-103 | between two sleeps the bytes i to j are appended; it sleeps, fails or returns exactly according to the first byte at which the reader is gone, the process is killed, the pipe is full or a copy fails, even after bytes have been put in |
| `Pipe.Pipe.ReadSection` | kernel/pipe.c:105-130 | the bytes returned are the next ones appended, a byte that cannot be copied out being consumed all the same; and when it sleeps, fails or stops |
| `Umalloc.Disjoint` | user/umalloc.c:10-21 | blocks that tile the memory do not overlap |
| `Umalloc.AskFits` | user/umalloc.c:46-61 | sbrk's int argument is the size meant if and only if the request is at most 2^31 - 32 bytes |
| `Umalloc.StopsAtPlace` | user/umalloc.c:30-32 | free's loop condition holds at exactly one node of the ring, and every other step comes nearer to it |
| `Umalloc.Heap.FindPlace` | user/umalloc.c:29-32 | the search ends at the node after which the block belongs |
| `Umalloc.Heap.JoinNext` | user/umalloc.c:33-37 | the block is joined with the free block after it, if that is adjacent |
| `Umalloc.Heap.JoinPrev` | user/umalloc.c:38-42 | and with the one before it; the ring is ordered and has no two adjacent blocks |
| `Umalloc.Heap.Free` | user/umalloc.c:24-44 | free and live blocks tile the same memory, and the block is live no more |
| `Umalloc.Heap.Morecore` | user/umalloc.c:46-61 | the memory grows by what was asked and holds a large enough free block; or nothing changes |
| `Umalloc.Heap.Carve` | user/umalloc.c:74-83 | the found block or its tail becomes a live block of the size asked |
| `Umalloc.Heap.Search` | user/umalloc.c:72-89 | the loop ends, with a block that fits, or after sbrk refused and no free block fits |
| `Umalloc.Heap.Malloc` | user/umalloc.c:63-90 | a new live block of the right size and no other change to live blocks; null only if sbrk refuses and no free block fits |
| `Umalloc.Heap.Store` | user/umalloc.c:10-21 | the program's writes inside a live block keep the allocator's invariant |
| `ShellGrammar.ParsePrint` | user/sh.c:345-447 | every tree of at most nine arguments a command is read back from its canonical tokens, with nothing left over |
| `ShellGrammar.ParseIff` | user/sh.c:328-447 | the parser returns a tree exactly if the grammar derives it from the whole line: redirections anywhere among the arguments, parentheses, pipes, lists and background commands; so no line has two trees |
| `ShellGrammar.LineWords` | user/sh.c:345-447 | the arguments and file names of the tree are exactly the words of the line |
| `ShellGrammar.LineRel` | user/sh.c:345-360 | parsing depends on the kinds of tokens alone, not on how words are represented |
| `Shell.Gettoken` | user/sh.c:266-309 | the next token, its extent, and the cursor at the rest |
| `Shell.Peek` | user/sh.c:311-321 | whether the next token begins with one of the symbols; the cursor keeps its tokens |
| `Shell.LexIff` | user/sh.c:266-309 | the tokens of a line are the only ones it spells: words as long as they go, >> before >, the other symbols, and blanks around them |
| `Shell.ParseRedirs` | user/sh.c:375-398 | the redirections of the grammar |
| `Shell.ParseExecAt` | user/sh.c:400-447 | simple commands and blocks as the grammar has them, or its error |
| `Shell.ParsePipeAt` | user/sh.c:362-373 | pipelines as the grammar has them |
| `Shell.ParseLineAt` | user/sh.c:345-360 | lists and background commands as the grammar has them |
| `Shell.Nulterminate` | user/sh.c:450-494 | NULs are written at the ends of the tree's words and nowhere else |
| `Shell.EndsOff` | user/sh.c:450-494 | none of those places is a character of a word |
| `Shell.ReadsBack` | user/sh.c:450-494 | every argument and file name then reads as exactly its token |
| `Shell.ParseCmd` | user/sh.c:328-343 | parsing ends on every line; it accepts exactly the lines whose tokens the grammar derives, and returns that tree; every word of the line is then a string in the buffer, and no character of a word has changed |
| `Shell.LexRender` | user/sh.c:266-309 | the tokens of a rendered token list are that list |
| `Shell.RoundTrip` | user/sh.c:328-447 | parsing the canonical text of any such tree gives that tree back |
| `Grep.MatchHere` | user/grep.c:83-95 | true exactly if the text can be cut so that each item of the pattern takes its part |
| `Grep.MatchStar` | user/grep.c:97-105 | the same with c* in front |
| `Grep.Match` | user/grep.c:71-81 | the same at some position, or only at the first after a leading ^ |
| `Grep.ItemsIff` | user/grep.c:71-95 | a pattern is read as the one list of items that is written so, with * after its character and $ at the end |
| `Grep.StarLaw` | user/grep.c:97-105 | c* takes nothing, or one character that fits and then c* again |
| `Grep.SimpleMatches` | user/grep.c:71-95 | a pattern without * $ ^ matches exactly the texts in which it stands somewhere, a dot standing for any character |
| `Grep.PrintLines` | user/grep.c:20-27 | exactly the matching complete lines of the buffer that lie before any NUL are printed, in order |
| `Grep.PrintedLines` | user/grep.c:10-34 | of a text of whole lines just the lines that match are printed, in order |
| `Grep.Grep` | user/grep.c:10-34 | for every input and every way of reading it in pieces, the output is exactly the matching lines of what was read that are complete before the first NUL; all of the input is read if and only if no line, the one with the first NUL running to the end, fills the buffer |

## Left out

- Console, `sys_history`, `top`, printf, traps, exec's ELF loading, system-call arguments: character handling and plumbing over the modelled parts.
- Hardware: `virtio_disk_init`, control registers, memory ordering and fences; `swtch` is an atomic transfer of control.
- Liveness: safety and the ends of loops are proved; that a sleeper is eventually scheduled is not.
- `FsRead.Filewrite`: no other process writes the inode between its transactions, when it is unlocked.
- The in-memory inode table (`iget`, `ilock`, `iput` references), `namei` path walking and `copyinstr`: they would add members of an easier kind. `Dir` takes the inodes a path leads to as arguments.
- The inode blocks: inodes are values, and writing one dirties its block; the encoding of a `struct dinode` is not modelled.
- `Dir.Dirs.Iput`: the reference count that decides when it runs is not modelled. The ".." of a removed directory may name an inode that is gone.
- `Dir.Dirs.Create`: link counts are exact numbers; `LinkCount` says when the 16-bit field has them. There is one device.
- `ProcCalls.ForkCall`, `ProcCalls.WaitCall`, `ProcCalls.ExitCall` and the other undisturbed calls: the spinlocks they need are free, since what an interrupted call does is the subject of the theorems over every run.
- `Proc.ReapedOnce`: pids are natural numbers; wrap-around after 2^31 forks is not modelled.
- `Mkfs.Image.Iappend`: needs that the data fits the disk, which the source does not check.
- `Mkfs.Image.Build`: the same; a file is read in full buffers.
- `Shell.ParseExecAt`: the tree is built when its parts are known; that the source fills an exec node after it has been wrapped in redirections is not modelled.
- `UserMemory.Walkaddr`: physical frames below the allocatable range and device memory are frames of the kernel that no user page maps.
- `Virtio.Disk.DeviceComplete`: the device moves a block in one step and is assumed not to fail, so the panic on a bad status does not arise.
- `Umalloc.Heap.Malloc`: requests above 2^31 - 32 bytes are excluded; `Umalloc.AskFits` says what sbrk is asked then.
- `LogRuns.Operation`: at most nine writes and enough buffers, since log_write and bget would panic otherwise; other operations may be outstanding, but take no step between its calls.
- `Log.DecodeHeader`: a count that the header block cannot hold is excluded; the source would read past the block.
- `Log.Log.ReadHead`: the same.
- `Log.Log.Recover`: a header whose count exceeds the log, or that names blocks outside the disk or inside the log, is excluded.
- `Log.Log.Commit`: readers leave two of the NBUF buffers free, since bget would panic otherwise, and take their steps between the commit's disk writes; from its bread to its brelse a write is one step beside them.
- `uvmfirst`, `uvmclear`, `growproc`, `kvmmake`, `free_desc` and `pipeclose` on their own: short uses of the modelled operations.
