# Verification of the kernel's core protocols

A Dafny model of the hard parts of the xv6 kernel with a multi-level feedback queue, Clock page
replacement and disk-backed swap (`cs3523-xv6-26-m/`), of the page tables and the
scheduler-aware Clock of `PA3/`, and of two user programs that carry an algorithm (`malloc`, `grep`).
Table sizes (NPROC, NBUF, NFRAME, LOGBLOCKS, NUM, the length of the request queue) are parameters,
so the results hold for every size. `dafny verify dfyconfig.toml` checks the project.

## Modules

| file | what it is about |
|---|---|
| `RedoLog.dfy`, `LogSteps.dfy`, `LogInvariant.dfy`, `LogStore.dfy`, `LogHistory.dfy` | the redo log: a machine with a crash possible between any two block writes and inside recovery; its invariant; the store it refines; what the disk holds over every run |
| `LogFull.dfy`, `LogStray.dfy` | runs into the full-log panic, and runs that lose or tear a write released unlogged |
| `BufferCache.dfy` | the buffer cache with its doubly linked LRU list, references, pins and locks |
| `LogBuffers.dfy`, `LogCode.dfy` | how cache and machine match; the code of `log.c` as methods that call the cache and drive the machine |
| `DiskQueue.dfy`, `Swap.dfy` | the request queue with FCFS and SSTF, and the swap area in three RAID layouts |
| `Clock.dfy`, `Paging.dfy`, `ClockVictim.dfy` | the Clock hand; eviction, swap and page faults; the scheduler-aware victim |
| `Virtio.dfy` | descriptors and rings shared with a device that completes requests in any order |
| `Malloc.dfy` | the circular free list of the allocator |
| `PageTable.dfy` | three-level page tables as a tree that refines a flat map |
| `Inodes.dfy` | block bitmap, inode block maps and file contents |
| `WaitExit.dfy`, `WaitChildren.dfy` | exit, reparent, wait, sleep and wakeup, step by step under their locks; who waits, and how lives and parents change |
| `Mlfq.dfy`, `MlfqPicks.dfy` | the scheduler, ticks and boosts on one CPU; what the two passes pick |
| `Pipe.dfy`, `Grep.dfy` | the pipe ring with 32-bit counters; the regular-expression matcher |

Code that runs under one lock from start to sleep or return is one method, or one step of a machine;
an interleaving of processes is then any sequence of those. Loops over process tables, buffers,
descriptors, frames and blocks stay loops, proved against functions of the old state.

## What the proofs found

- `log_write` checks for a full log before it looks for the block, so it panics on a block that is
  already logged once the log holds LOGBLOCKS blocks. `LogHistory.AppendFindsRoom` gives the exact
  condition and shows that a write that appends always finds room; `LogFull.AbsorbedWriteCanPanic`
  reaches the panic with operations that stay within their reservations.
- `writei` releases a block without `log_write` when copying the user's bytes fails half way
  (`fs.c` 540-545, `vm.c` 449-471). Until the buffer is recycled readers see those bytes, which the
  returned count does not include, and then they are gone without a crash
  (`LogStray.StrayWriteIsLost`); an operation that logs one block and releases another this way is
  committed in part (`LogStray.StrayWriteIsTorn`). The log gives atomic transactions exactly in the runs
  where every released buffer is unchanged since its last `log_write` or already in the header
  (`LogHistory.TidyIff`); for all other runs `LogHistory.CrashRefinement` still says what each block
  holds. `Inodes.FileSystem.Writei` has both counts.
- `malloc` of more than 2147483616 bytes asks `sbrk(int)` for a truncated amount while the block's
  header claims the whole (`Malloc.FitsIff`, `Malloc.LargestRequestIsCut`).
- `clck_victim` gives a tie to the frame at which the hand stopped if that frame is among the best;
  otherwise to the lowest index, not to the first in hand order (`ClockVictim.TiesIff`,
  `ClockVictim.TiesCanGoToALaterFrame`).
- PA2's notes say that a boost resets every process. The code resets runnable processes only
  (`Mlfq.BoostResetsIff`, `Mlfq.BoostCanMiss`); those are dispatched within the bound all the same.
- An eviction to swap slot 0 in `PA3/vm.c` stores an entry that is all zero, so the page reads as if it
  had never been there (`PageTable.AddressSpace.Evict`).
- All buffers start out as block 0 of device 0 (`BufferCache.Cache.constructor`); uniqueness of buffers
  is stated for every other device.
- The comments in `virtio_disk.c` speak of 8 blocks per page and 8192 blocks per disk. The constants
  give 4 and 4096, which the model uses.
- In RAID mode 1 a mirror lies on the primary copy of the next block of the page, and in RAID mode 2 the
  parity of a page's second row on a block of its first (`Swap.Raid1Overlaps`, `Swap.Raid5Overlaps`), so
  no round trip is claimed for these modes. A page that goes out in one of them is called lost; the
  paging results say exactly which pages are.

## Model

| member | source | states |
|---|---|---|
| LogHistory.CrashRefinement | cs3523-xv6-26-m/kernel/log.c:66-124 | after any run with any crashes, what recovery yields for a block is its initial contents changed by exactly the writes that were in its buffer at the last finished header write naming it; readers see those and the later writes, until a crash or the recycling of the buffer |
| LogHistory.AtomicRefinement | cs3523-xv6-26-m/kernel/log.c:66-236 | after a run in which no changed block is released unlogged, the durable contents are the initial ones changed by exactly the writes of the transactions whose header write finished, in order; readers see those and all later writes |
| LogHistory.TidyIff | cs3523-xv6-26-m/kernel/fs.c:539-551 | a run, its prefixes and each with one buffer recycled behave as the atomic store exactly if every released buffer is unchanged since log_write or logged already |
| LogHistory.EvictLosesIff | cs3523-xv6-26-m/kernel/bio.c:77-86 | recycling a buffer changes what readers see exactly if it was released changed and differs from the disk, and then its block was never logged |
| LogStray.StrayWriteIsLost | cs3523-xv6-26-m/kernel/fs.c:540-545 | a run from boot without crash in which a write released unlogged is gone |
| LogStray.StrayWriteIsTorn | cs3523-xv6-26-m/kernel/fs.c:540-545 | a run from boot in which one write of an operation is durable and another is not |
| LogHistory.RecoveredDisk | cs3523-xv6-26-m/kernel/log.c:117-124 | recovery that reaches its end, after any run and any number of crashes inside recovery, leaves exactly the durable contents on the disk itself |
| LogHistory.OperationsAreAtomic | cs3523-xv6-26-m/kernel/log.c:126-204 | in every run that releases no changed block unlogged, an operation's writes are durable all together or not at all |
| LogHistory.CommitIsComplete | cs3523-xv6-26-m/kernel/log.c:194-204 | in such a run, once a commit is past its header write, nothing that an ended operation wrote is missing from the durable contents |
| LogHistory.PendingIsLogged | cs3523-xv6-26-m/kernel/log.c:206-236 | in such a run, every write that is not durable yet is to a block in the in-memory header or still held by its writer |
| LogHistory.CommitRunsAlone | cs3523-xv6-26-m/kernel/log.c:126-176 | committing implies no outstanding operation; logged block numbers are distinct and fit the log; end_op never finds a commit in progress |
| LogHistory.CrashAnywhere | cs3523-xv6-26-m/kernel/log.c:66-204 | a crash is possible after every run; it keeps the disk and nothing of the memory |
| LogHistory.AppendFindsRoom | cs3523-xv6-26-m/kernel/log.c:216-236 | within a reservation of MAXOPBLOCKS distinct blocks, log_write panics exactly when the log is full, and then only for a block already logged |
| LogInvariant.StepKeeps | cs3523-xv6-26-m/kernel/log.c:66-236 | every step of the machine, the release of a changed block among them, keeps the invariant over disk, cache, pins, header, reservations and commit phase |
| LogInvariant.RunKeeps | cs3523-xv6-26-m/kernel/log.c:66-236 | the invariant holds in every reachable state |
| LogStore.StepRefines | cs3523-xv6-26-m/kernel/log.c:66-236 | a step changes a block's durable contents only if it is a header write that names the block, which makes them the current view; the view changes only by a modification, a crash or the recycling of its buffer |
| LogFull.AbsorbedWriteCanPanic | cs3523-xv6-26-m/kernel/log.c:221-224 | the full-log panic is reachable, from boot, for a block that is already logged |
| LogBuffers.BreadMatches | cs3523-xv6-26-m/kernel/bio.c:58-103 | reading a block is, for the machine, nothing or the recycling of one block that it allows, followed by the lock |
| LogBuffers.StoreMatches | cs3523-xv6-26-m/kernel/bio.c:105-112 | changing a locked buffer and writing it is the machine's atomic block write |
| LogBuffers.DropMatches | cs3523-xv6-26-m/kernel/bio.c:114-137 | releasing a buffer that the log had locked leaves cache and machine matched |
| LogCode.LoggedStaysCached | cs3523-xv6-26-m/kernel/log.c:231-234 | a block that is logged and not yet installed is pinned and cached, so it is never recycled |
| LogCode.HeadIsReady | cs3523-xv6-26-m/kernel/log.c:100-115 | during a commit and at boot the header block reads as a header with room for LOGBLOCKS entries |
| LogCode.Log.constructor | cs3523-xv6-26-m/kernel/log.c:53-63 | a log at boot over a cache that matches the disk and in which each buffer is referenced once by its holder, at the start or after any run and a crash |
| LogCode.Log.Fetch | cs3523-xv6-26-m/kernel/bio.c:91-103 | the block's buffer with what the machine reads; the only machine step is the recycling of another block; fails exactly when every buffer's block is held, busy in the log code or pinned and none has the block |
| LogCode.Log.TakenIff | cs3523-xv6-26-m/kernel/bio.c:75-88 | no buffer is unused exactly if the block of every buffer is held by a process, busy in the log code or pinned: no reference leaks |
| LogCode.Log.Put | cs3523-xv6-26-m/kernel/bio.c:114-137 | gives such a buffer back; all locked buffers stay |
| LogCode.Log.BeginOp | cs3523-xv6-26-m/kernel/log.c:126-143 | one pass of the loop enters exactly when no commit runs and the reservation fits, and is then the machine's step |
| LogCode.Log.Acquire | cs3523-xv6-26-m/kernel/bio.c:91-103 | a process's bread is the machine's step, after at most one recycling; it fails exactly in that case |
| LogCode.Log.Change | cs3523-xv6-26-m/kernel/log.c:206-215 | a change of a held buffer is the machine's step |
| LogCode.Log.Release | cs3523-xv6-26-m/kernel/bio.c:114-137 | a process's brelse is the machine's step, whether or not the block was logged |
| LogCode.Log.LogWrite | cs3523-xv6-26-m/kernel/log.c:216-236 | with absorption and pinning it is the machine's step; it fails exactly when the log is full |
| LogCode.Log.Append | cs3523-xv6-26-m/kernel/log.c:230-234 | a block new in the log was not pinned, and bpin pins it |
| LogCode.Log.WriteLog | cs3523-xv6-26-m/kernel/log.c:178-192 | copies every cached block to the log through the cache, one machine step for each; the outcome of bget's panic is one where every buffer is in use |
| LogCode.Log.CommitHead | cs3523-xv6-26-m/kernel/log.c:100-115 | write_head after write_log is the machine's commit step |
| LogCode.Log.InstallTrans | cs3523-xv6-26-m/kernel/log.c:66-84 | installs every logged block, in commit and in recovery, one machine step for each, and unpins it in commit |
| LogCode.Log.Commit | cs3523-xv6-26-m/kernel/log.c:194-204 | the whole commit is the machine's sequence copy, header, install, clear, apart from recycled buffers, and leaves an empty header |
| LogCode.Log.EndOp | cs3523-xv6-26-m/kernel/log.c:145-176 | the last operation to end commits; others only leave; readers may hold any block that the commit does not need |
| LogCode.Log.ReadHead | cs3523-xv6-26-m/kernel/log.c:86-98 | the in-memory header is the one on disk |
| LogCode.Log.RecoverFromLog | cs3523-xv6-26-m/kernel/log.c:117-124 | after it every home block of the disk holds the initial contents with its durable writes replayed |
| BufferCache.Cache.constructor | cs3523-xv6-26-m/kernel/bio.c:36-53 | the links form one cycle through all buffers, which all start as block 0 of device 0, unlocked and without a reference |
| BufferCache.Cache.InUseIff | cs3523-xv6-26-m/kernel/bio.c:58-151 | where each buffer has one holder at most, its count is one for its lock plus one for its block's pin, so it is unused exactly if neither is there |
| BufferCache.Cache.Bget | cs3523-xv6-26-m/kernel/bio.c:58-89 | takes the buffer of the block, else the unused buffer nearest the least recently used end, whose block is neither pinned nor locked; panics exactly when there is neither |
| BufferCache.Cache.FindKey | cs3523-xv6-26-m/kernel/bio.c:65-73 | the forward walk finds the block's buffer exactly if there is one |
| BufferCache.Cache.FindUnused | cs3523-xv6-26-m/kernel/bio.c:75-88 | the backward walk finds the unused buffer with no unused one behind it |
| BufferCache.Cache.Lock | cs3523-xv6-26-m/kernel/bio.c:70-71 | a free buffer lock is taken; nothing else changes |
| BufferCache.Cache.Unlock | cs3523-xv6-26-m/kernel/bio.c:119-122 | the lock is free again; nothing else changes |
| BufferCache.Cache.Fill | cs3523-xv6-26-m/kernel/bio.c:97-103 | the buffer then holds what readers of its block get |
| BufferCache.Cache.Bread | cs3523-xv6-26-m/kernel/bio.c:91-103 | the buffer returned is the block's, locked, with the cached contents or else the disk's, and one reference more; no other buffer changes; at most one other block, neither pinned nor locked, is no longer cached |
| BufferCache.Cache.Modify | cs3523-xv6-26-m/kernel/log.c:206-215 | new data in a held buffer is from then on what readers of its block get |
| BufferCache.Cache.Bwrite | cs3523-xv6-26-m/kernel/bio.c:105-112 | the disk gets the buffer's data |
| BufferCache.Cache.Brelse | cs3523-xv6-26-m/kernel/bio.c:114-137 | the holder's lock and exactly one reference are given back, whatever the data; no other buffer changes; the last reference moves the buffer to the front of the list and keeps the others in order; cached contents and pins stay |
| BufferCache.Cache.MoveToFront | cs3523-xv6-26-m/kernel/bio.c:128-133 | the six assignments leave one cycle, with the buffer first |
| BufferCache.Cache.Bpin | cs3523-xv6-26-m/kernel/bio.c:139-144 | the block is pinned: one reference more than the processes have |
| BufferCache.Cache.Bunpin | cs3523-xv6-26-m/kernel/bio.c:146-151 | the block is no longer pinned; its holder's reference stays |
| BufferCache.ChangeKeeps | cs3523-xv6-26-m/kernel/bio.c:58-151 | a change of one buffer that keeps its block keeps all buffers' counts, locks and contents in order |
| BufferCache.UnlinkKeeps | cs3523-xv6-26-m/kernel/bio.c:128-129 | taking a buffer out of a well-linked list leaves a well-linked list without it |
| BufferCache.PushKeeps | cs3523-xv6-26-m/kernel/bio.c:130-133 | putting a buffer in front of a well-linked list leaves a well-linked list with it |
| BufferCache.RecycleKeeps | cs3523-xv6-26-m/kernel/bio.c:77-86 | recycling an unused buffer takes no pinned and no locked block, and keeps one buffer per block |
| DiskQueue.ServesEachOnce | cs3523-xv6-26-m/kernel/virtio_disk.c:464-540 | a drain serves each queued request exactly once, under either policy |
| DiskQueue.BestIffChosen | cs3523-xv6-26-m/kernel/virtio_disk.c:482-494 | the score prefers a request exactly if it comes first by distance, then priority, then slot, for priorities 0 to 3 |
| DiskQueue.DrainsInOrder | cs3523-xv6-26-m/kernel/virtio_disk.c:464-540 | at every point of a drain the next request served is the first of the waiting ones in that order |
| DiskQueue.TravelBound | cs3523-xv6-26-m/kernel/virtio_disk.c:482-518 | an SSTF drain with priorities 0 to 3 moves the head at most twice the span of head and requests, so latency grows by at most that plus 10 for each request |
| DiskQueue.SweepTravel | cs3523-xv6-26-m/kernel/virtio_disk.c:482-518 | the served blocks stay an interval with the head at an end, and what is retraced never exceeds the gap left on the far side |
| DiskQueue.LatencyIsTravel | cs3523-xv6-26-m/kernel/virtio_disk.c:512-517 | the latency sum is the head travel plus 10 for each request |
| DiskQueue.WritesLand | cs3523-xv6-26-m/kernel/virtio_disk.c:534-536 | writes to distinct blocks all land, whatever the order, and change no other block |
| DiskQueue.ReadsArrive | cs3523-xv6-26-m/kernel/virtio_disk.c:534-536 | reads into distinct buffers all arrive, whatever the order, and change no other buffer |
| DiskQueue.Disk.Enqueue | cs3523-xv6-26-m/kernel/virtio_disk.c:446-461 | the request goes into the first unused slot, and is dropped when there is none |
| DiskQueue.Disk.Select | cs3523-xv6-26-m/kernel/virtio_disk.c:470-494 | the loop finds the request in the lowest slot under FCFS, and under SSTF the nearest one to the head, the most urgent of the nearest, the lowest slot of those; or none |
| DiskQueue.Disk.RunQueue | cs3523-xv6-26-m/kernel/virtio_disk.c:464-540 | the loop drains the queue in the specified order; head, counters, latency sum, memory and disk are those of that order |
| Swap.StripesInjective | cs3523-xv6-26-m/kernel/virtio_disk.c:549-569 | different slots and blocks have different RAID 0 addresses |
| Swap.StripesSpread | cs3523-xv6-26-m/kernel/virtio_disk.c:549-569 | RAID 0 puts the four blocks of a page on the four disks, at one offset |
| Swap.MirrorsSpread | cs3523-xv6-26-m/kernel/virtio_disk.c:587-600 | RAID 1 puts a block and its mirror on neighbouring disks |
| Swap.RowsSpread | cs3523-xv6-26-m/kernel/virtio_disk.c:626-636 | RAID 5 puts the data of a row and its parity on different disks, and the parity disk rotates with the row |
| Swap.RegionsDisjoint | cs3523-xv6-26-m/kernel/virtio_disk.c:549-694 | every address of a mode lies in the region of that mode, and the three regions are disjoint |
| Swap.Raid1Overlaps | cs3523-xv6-26-m/kernel/virtio_disk.c:587-600 | the mirror of every block is the primary address of the next block of the page |
| Swap.Raid5Overlaps | cs3523-xv6-26-m/kernel/virtio_disk.c:626-636 | the parity of a page's second row is an address of its first row, unless the rows fall in different groups of four |
| Swap.Raid0Write | cs3523-xv6-26-m/kernel/virtio_disk.c:559-569 | draining the four writes of a page puts its bytes on its stripes and changes no other block |
| Swap.Raid0Read | cs3523-xv6-26-m/kernel/virtio_disk.c:571-581 | draining the four reads of a slot brings back what its stripes hold and changes no other buffer |
| Swap.OtherModes | cs3523-xv6-26-m/kernel/virtio_disk.c:587-694 | RAID 1 and RAID 5 traffic stays in its region and its page |
| Swap.SwapArea.SwapWrite | cs3523-xv6-26-m/kernel/virtio_disk.c:696-713 | the mode is recorded for the slot; in a striping mode the slot then holds the page; blocks outside the mode's reach are unchanged |
| Swap.SwapArea.SwapRead | cs3523-xv6-26-m/kernel/virtio_disk.c:715-729 | a slot written in a striping mode comes back as it is on disk; no other memory changes |
| Clock.HandStep | cs3523-xv6-26-m/kernel/kalloc.c:235-248 | a hand step goes on, with the passed bits clear, or stops at the second-chance frame |
| Clock.VictimUnique | cs3523-xv6-26-m/kernel/kalloc.c:235-248 | the second-chance frame is unique |
| Paging.PteRoundTrip | cs3523-xv6-26-m/kernel/trap.c:91-98 | an entry swapped out names its slot, is not valid and keeps its permissions; swapped in again it is the entry it was |
| Paging.OutKeeps | cs3523-xv6-26-m/kernel/kalloc.c:249-263 | evicting a page keeps every user page's contents and permissions; no two pages share a frame or a slot, and the slots in use are exactly those that entries name |
| Paging.InKeeps | cs3523-xv6-26-m/kernel/trap.c:86-102 | so does swapping a page in |
| Paging.Pager.Select | cs3523-xv6-26-m/kernel/kalloc.c:235-252 | the unbounded loop stops at exactly the second-chance frame within 2 * NFRAME hand steps |
| Paging.Pager.SwapOut | cs3523-xv6-26-m/kernel/kalloc.c:159-190 | the first free slot is taken and holds the page; -1 exactly when all are in use |
| Paging.Pager.SwapIn | cs3523-xv6-26-m/kernel/kalloc.c:192-220 | the page gets the slot's contents and the slot is free |
| Paging.Pager.EvictPages | cs3523-xv6-26-m/kernel/kalloc.c:228-285 | the victim's entry names a slot that was free, its frame is given up, and the page returned is the victim's |
| Paging.Pager.Kalloc | cs3523-xv6-26-m/kernel/kalloc.c:115-134 | the first free page, or else the page of the second-chance victim; the page is mapped by nobody |
| Paging.Pager.Kfree | cs3523-xv6-26-m/kernel/kalloc.c:78-113 | the page leaves the frame table, is filled with 1s and heads the free list |
| Paging.Pager.TrackFrame | cs3523-xv6-26-m/kernel/kalloc.c:136-157 | the frame is in use, referenced and owned by the page mapped to it; pages past the table are not tracked |
| Paging.Pager.Fault | cs3523-xv6-26-m/kernel/trap.c:86-102 | the page is resident and tracked again with the same permissions and, if its slot was written in a striping mode, the same contents, and its slot is free; every other page keeps contents and permissions, and is where it was or is the one that went out |
| Paging.Pager.Lazy | cs3523-xv6-26-m/kernel/vm.c:521-554 | refused exactly for an address past the process size; else a fresh zeroed page with R, W and U, tracked, and the other pages as for a fault |
| Paging.Pager.Touch | cs3523-xv6-26-m/kernel/trap.c:81-110 | goes on exactly if the page is resident, the access is refused, or kalloc can succeed, and else changes nothing; then the page is in memory with its contents; a page is lost anew only if it was resident, is now swapped, and the mode does not stripe |
| Paging.Pager.Act | cs3523-xv6-26-m/kernel/kalloc.c:115-285 | one operation is one step of flat memory, with the pages that went out, and stops exactly where kalloc cannot succeed |
| Paging.Pager.Drop | cs3523-xv6-26-m/kernel/vm.c:227-245 | exactly the page, or the slot, is given back and no other page changes |
| Paging.Pager.RunAll | cs3523-xv6-26-m/kernel/kalloc.c:115-285 | over any run of accesses, writes, removals, RAID mode and policy changes, demand paging refines a memory that never swaps: permissions of all pages are equal, and contents of all but the lost ones, which the list of evictions with their modes determines; the run ends early exactly at an operation at which kalloc cannot succeed |
| Paging.Pager.RoundTrip | cs3523-xv6-26-m/kernel/trap.c:86-102 | after any run that does not name it, a page that was resident or in a striped slot, and went out only in striping modes, has the same bytes and permissions at its next access; the evictions are those of the run, and the access fails exactly where kalloc cannot succeed, in the run or at the end |
| Paging.RanFlat | cs3523-xv6-26-m/kernel/kalloc.c:115-285 | any sequence of such steps computes flat memory and keeps every page that it does not name |
| Paging.LostHow | cs3523-xv6-26-m/kernel/kalloc.c:159-190 | a page is lost anew only by going out in a mode that does not stripe |
| ClockVictim.FrameTable.FrameAlloc | PA3/kalloc.c:110-128 | the first free entry is taken; fails exactly when all are in use; user_frames stays the number of entries in use |
| ClockVictim.FrameTable.FrameFree | PA3/kalloc.c:130-144 | frees the first entry for the page, if any; user_frames stays the number of entries in use |
| ClockVictim.FrameTable.Victim | PA3/kalloc.c:164-197 | -1 exactly when no frame is in use; else an in-use clear frame of maximal level among clear ones, the frame the hand stopped at if that is one, else the lowest index |
| ClockVictim.FrameTable.PickBest | PA3/kalloc.c:178-188 | the inner loop makes that choice |
| ClockVictim.TiesIff | PA3/kalloc.c:170-191 | the exact condition under which the choice is the first best frame in hand order |
| ClockVictim.TiesCanGoToALaterFrame | PA3/kalloc.c:181-188 | a table on which it is not |
| Virtio.Partition | cs3523-xv6-26-m/kernel/virtio_disk.c:213-271 | chains share no descriptor with each other or with the free ones |
| Virtio.Covered | cs3523-xv6-26-m/kernel/virtio_disk.c:213-271 | every descriptor that is not free is in a chain |
| Virtio.WrapPosition | cs3523-xv6-26-m/kernel/virtio_disk.c:329-335 | a 16-bit counter gives the right ring position after wrapping |
| Virtio.AvailFits | cs3523-xv6-26-m/kernel/virtio_disk.c:329-335 | the entries the device has not taken fit the available ring |
| Virtio.UsedFits | cs3523-xv6-26-m/kernel/virtio_disk.c:367-382 | the completions not seen yet fit the used ring |
| Virtio.DeviceView | cs3523-xv6-26-m/kernel/virtio_disk.c:292-323 | the device, following the links from an offered head, finds a header with direction and first sector, the data buffer, which it may write exactly for a read, and the status byte, which it may write; there the chain ends |
| Virtio.Driver.AllocDesc | cs3523-xv6-26-m/kernel/virtio_disk.c:213-224 | a free descriptor, marked used, or -1 exactly when none is free |
| Virtio.Driver.FreeDesc | cs3523-xv6-26-m/kernel/virtio_disk.c:226-240 | the descriptor is cleared and free |
| Virtio.Driver.Alloc3 | cs3523-xv6-26-m/kernel/virtio_disk.c:257-271 | three distinct free descriptors, or none taken and at most two free |
| Virtio.Driver.Submit | cs3523-xv6-26-m/kernel/virtio_disk.c:273-339 | a chain of three laid out as the device reads it, for the right sectors and direction, with the status not yet set, and offered once, or nothing; all invariants kept |
| Virtio.Driver.DeviceTake | cs3523-xv6-26-m/kernel/virtio_disk.c:329-339 | the device reads the next head offered, across wraparound |
| Virtio.Driver.DeviceComplete | cs3523-xv6-26-m/kernel/virtio_disk.c:367-372 | any chain the device holds may complete next, with any status; no unseen completion is overwritten |
| Virtio.Driver.Interrupt | cs3523-xv6-26-m/kernel/virtio_disk.c:352-385 | every unseen completion releases the buffer of the request that owns its head, once, and nothing else is released; it panics exactly if an unseen completion has a status other than 0, and at the first such one |
| Virtio.Driver.Finish | cs3523-xv6-26-m/kernel/virtio_disk.c:341-347 | exactly the chain's descriptors become free; the panics of free_desc cannot happen |
| Virtio.Driver.FreeChain | cs3523-xv6-26-m/kernel/virtio_disk.c:242-255 | following the next links frees exactly three descriptors |
| Malloc.Disjoint | cs3523-xv6-26-m/user/umalloc.c:24-90 | two blocks, live or free, never overlap |
| Malloc.SizesSum | cs3523-xv6-26-m/user/umalloc.c:24-90 | the sizes of all blocks sum to the units sbrk supplied |
| Malloc.ReturnKeeps | cs3523-xv6-26-m/user/umalloc.c:33-43 | returning a block keeps one address-sorted cycle, the partition of memory, and no two adjacent free blocks |
| Malloc.AfterFreeIsReturned | cs3523-xv6-26-m/user/umalloc.c:33-42 | the assignments of free amount to an insertion followed by the two merges |
| Malloc.AdvanceDecreases | cs3523-xv6-26-m/user/umalloc.c:30-32 | a step along the list leaves fewer nodes ahead, so both searches end |
| Malloc.FitsIff | cs3523-xv6-26-m/user/umalloc.c:46-55 | the request to sbrk survives its int parameter exactly up to 2147483616 bytes |
| Malloc.LargestRequestIsCut | cs3523-xv6-26-m/user/umalloc.c:46-61 | the largest argument makes a header of 268435457 units for one unit obtained |
| Malloc.UnitsIs | cs3523-xv6-26-m/user/umalloc.c:69-69 | the units behind the header hold the bytes asked for, and less than one header more |
| Malloc.BytesInside | cs3523-xv6-26-m/user/umalloc.c:69-90 | each byte asked for lies in a unit of its block and of no other |
| Malloc.Allocator.FindSlot | cs3523-xv6-26-m/user/umalloc.c:30-32 | the search ends at the node after which the block belongs |
| Malloc.Allocator.Free | cs3523-xv6-26-m/user/umalloc.c:24-44 | exactly one live block less; all invariants kept; other live blocks untouched |
| Malloc.Allocator.MoreCore | cs3523-xv6-26-m/user/umalloc.c:46-61 | success adds a free block near freep and counts what sbrk supplied; failure changes nothing |
| Malloc.Allocator.Search | cs3523-xv6-26-m/user/umalloc.c:74-86 | one round finds the first large enough block behind freep exactly if there is one, and ends |
| Malloc.Allocator.Malloc | cs3523-xv6-26-m/user/umalloc.c:63-90 | a new live block with room for the bytes asked for and less than one header to spare, every byte of it in no other block; null exactly when no block fits and sbrk fails; the cut request exactly as FitsIff says |
| PageTable.AddKeeps | PA3/vm.c:103-112 | a new blank table keeps the page table a tree |
| PageTable.AddLeaf | PA3/vm.c:103-112 | a new blank table changes no leaf |
| PageTable.StoreLeaf | PA3/vm.c:163-170 | a store to a leaf entry changes exactly that page's entry |
| PageTable.HardwareSees | PA3/vm.c:97-115 | the walk of the Sv39 hardware, by the three nine-bit fields of an address, finds the entry that the flat map gives, and faults exactly where that is not valid |
| PageTable.AddressSpace.constructor | PA3/vm.c:177-187 | one blank table, an empty flat map |
| PageTable.SpendIs | PA3/vm.c:97-115 | what mapping a range costs: one free page for each page and one for each table that is not there yet |
| PageTable.CoversIff | PA3/vm.c:223-247 | the number of pages that the free list pays for reaches the end of the range exactly if the whole range is paid for |
| PageTable.AddressSpace.Walk | PA3/vm.c:97-115 | the place of the page's leaf entry; with alloc it fails exactly if the free pages do not suffice for the missing tables; new tables change no leaf |
| PageTable.AddressSpace.MapPages | PA3/vm.c:145-174 | success maps exactly its range; failure leaves a mapped prefix, exactly when the next page's tables are not paid for; a remap panics |
| PageTable.AddressSpace.Unmap | PA3/vm.c:192-219 | removes exactly its range; frees exactly its pages and swap slots |
| PageTable.AddressSpace.AllocOne | PA3/vm.c:233-243 | one new page with its tables, exactly if the free list pays for them; else no entry changes and the page is given back |
| PageTable.AddressSpace.Alloc | PA3/vm.c:223-247 | succeeds exactly if the free list pays for all pages and tables, and then maps exactly the new pages to distinct pages off the list; failure zeroes the entries of the pages that were paid for, changes no other leaf, and gives every page back that is not a new table |
| PageTable.AddressSpace.AllocOrNothing | PA3/vm.c:223-247 | on zero entries it maps all pages or changes no entry |
| PageTable.AddressSpace.Dealloc | PA3/vm.c:253-265 | removes exactly the pages past the new size |
| PageTable.AddressSpace.Grow | PA3/proc.c:254-275 | keeps the process's pages its own and every entry above its size zero; succeeds exactly if there is address space and enough free pages; a failed call changes neither size nor any entry |
| PageTable.AddressSpace.GrowLazily | PA3/sysproc.c:55-64 | lazy sbrk keeps the same |
| PageTable.AddressSpace.Evict | PA3/vm.c:482-491 | the entry names the slot and the page is given back; the same is kept; the entry is zero exactly for slot 0 |
| PageTable.AddressSpace.PageIn | PA3/vm.c:460-526 | refused for an address past the size or a mapped page; else a new page for the entry, exactly if the free list pays for it; the same is kept |
| PageTable.AddressSpace.FreeWalk | PA3/vm.c:269-285 | returns each table page below a node exactly once and touches no other page |
| PageTable.AddressSpace.FreeAll | PA3/vm.c:289-295 | a table without leaves goes back whole to the free list; the leaf panic cannot happen |
| Inodes.NoSharing | cs3523-xv6-26-m/kernel/fs.c:405-444 | no two places that hold block numbers name the same block |
| Inodes.FreeIff | cs3523-xv6-26-m/kernel/fs.c:66-106 | a bitmap bit is clear exactly for data blocks that no inode names |
| Inodes.PutBytes | cs3523-xv6-26-m/kernel/fs.c:405-444 | allocating a block for a place changes no byte of any file |
| Inodes.StoreBytes | cs3523-xv6-26-m/kernel/fs.c:539-551 | bytes stored in a file's block appear at their offset and in no other place of any file |
| Inodes.TruncFrees | cs3523-xv6-26-m/kernel/fs.c:446-476 | the freed blocks are exactly those the inode named; other files read the same |
| Inodes.SpliceContents | cs3523-xv6-26-m/kernel/fs.c:528-562 | a complete write splices its bytes into the file, and reading them back gives them |
| Inodes.FileSystem.Balloc | cs3523-xv6-26-m/kernel/fs.c:64-89 | the first clear bit, set, with the block zeroed; 0 exactly when none is clear |
| Inodes.FileSystem.Bfree | cs3523-xv6-26-m/kernel/fs.c:91-106 | clears a set bit |
| Inodes.FileSystem.Bmap | cs3523-xv6-26-m/kernel/fs.c:402-444 | the number of the file's block, from its direct address or its entry in the indirect block, allocated if it was missing; no byte of any file changes; 0 only when the disk is full |
| Inodes.FileSystem.Itrunc | cs3523-xv6-26-m/kernel/fs.c:446-476 | exactly the inode's blocks are freed, none twice, and the file is empty |
| Inodes.FileSystem.Writei | cs3523-xv6-26-m/kernel/fs.c:528-562 | fails exactly on a bad offset or length; else the bytes that arrived are what readers see at their place and nowhere else, the log has exactly the counted ones, the size follows the count, and a full count is a splice; all readable bytes arrive unless a block that was missing cannot be had on a full disk, and then exactly those before the first such block |
| Inodes.CountedIs | cs3523-xv6-26-m/kernel/fs.c:539-551 | when the source stops being readable, the count is that of the blocks read in full |
| Inodes.FileSystem.Readi | cs3523-xv6-26-m/kernel/fs.c:494-519 | delivers exactly the slice of the file, cut at its end, and changes nothing |
| WaitExit.NoLostWakeup | cs3523-xv6-26-m/kernel/proc.c:388-503 | whenever wait_lock is free, no process asleep in kwait has a zombie child |
| WaitExit.FreedOnceByParent | cs3523-xv6-26-m/kernel/proc.c:449-503 | kwait frees a zombie that is its own child, off its stack, with the pid it returns and never freed before, though it dropped both locks |
| WaitExit.ZombiesWaitForParent | cs3523-xv6-26-m/kernel/proc.c:405-503 | nothing else ends a zombie or changes its pid |
| WaitExit.ParentsAreAlive | cs3523-xv6-26-m/kernel/proc.c:388-444 | every process with a parent has a living one |
| WaitExit.StepKeeps | cs3523-xv6-26-m/kernel/proc.c:336-503 | every step of every process keeps the invariant over locks, states, channels, parents and program positions |
| WaitExit.RunKeeps | cs3523-xv6-26-m/kernel/proc.c:654-723 | the invariant holds in every interleaving, with sleep, wakeup and kill, also while kwait copies the status out or kfork copies memory |
| WaitChildren.WaitersHaveChildren | cs3523-xv6-26-m/kernel/proc.c:449-503 | in every reachable state, whoever sleeps in kwait has a child |
| WaitChildren.ScanEndReturns | cs3523-xv6-26-m/kernel/proc.c:494-501 | a scan of kwait that finds no zombie gives up exactly if the process has no child or is killed; else it goes to sleep |
| WaitChildren.ParentChanges | cs3523-xv6-26-m/kernel/proc.c:336-503 | a parent changes only by a fork that links its child, by the exit of the parent in favour of init, or by the freeing of the entry |
| WaitChildren.Lives | cs3523-xv6-26-m/kernel/proc.c:336-723 | every change of a process state is by the step that is for it, and that step makes it |
| Mlfq.TickKeeps | cs3523-xv6-26-m/kernel/proc.c:36-62 | a tick demotes exactly when the quantum ends with fewer calls made in it than ticks above level 3, and keeps every counter in order |
| Mlfq.ReachableInOrder | cs3523-xv6-26-m/kernel/proc.c:36-75 | in every reachable state levels are 0 to 3, ticks are below the quantum, ticks per level sum to ticks received, and without calls and boosts levels 1, 2 and 3 begin at ticks 2, 6 and 14 |
| Mlfq.StepKeeps | cs3523-xv6-26-m/kernel/proc.c:513-569 | every step keeps that, and exactly the process on the CPU is running |
| Mlfq.BoundedWaiting | cs3523-xv6-26-m/kernel/proc.c:513-569 | a process runnable at level 0 is dispatched after at most 2 * NPROC - 2 dispatches of others and 7 * NPROC + 4 scheduler steps |
| Mlfq.BoostServes | cs3523-xv6-26-m/kernel/trap.c:215-240 | so is every process that is runnable when a boost runs, whatever its level was |
| Mlfq.BoostResetsIff | cs3523-xv6-26-m/kernel/proc.c:64-75 | a boost resets a lower process exactly when it is runnable |
| Mlfq.BoostCanMiss | cs3523-xv6-26-m/kernel/proc.c:64-75 | a run from boot in which a process sinks to level 1, sleeps, and is still there after the boost at tick 128 |
| MlfqPicks.ScanFindsBest | cs3523-xv6-26-m/kernel/proc.c:526-538 | the scheduler steps of the first pass reach the second pass at the best level with a runnable process |
| MlfqPicks.SchedulerPicks | cs3523-xv6-26-m/kernel/proc.c:513-569 | uninterrupted from the start of a scan, the first process of that level is dispatched, after level * (NPROC + 1) + 2 * j + 2 steps |
| MlfqPicks.DispatchesSoon | cs3523-xv6-26-m/kernel/proc.c:513-569 | from any position, with a runnable process at any level, somebody is dispatched within 10 * (NPROC + 1) scheduler steps |
| MlfqPicks.PassGoesOn | cs3523-xv6-26-m/kernel/proc.c:544-567 | after a process leaves the CPU, the next runnable one behind it at the level being served is next |
| MlfqPicks.PassEnds | cs3523-xv6-26-m/kernel/proc.c:544-567 | if there is none, a new scan starts from level 0 |
| MlfqPicks.StatusMoves | cs3523-xv6-26-m/kernel/proc.c:513-723 | a process changes its state exactly by the step that is for that change |
| Mlfq.Table.MlfqTick | cs3523-xv6-26-m/kernel/proc.c:36-62 | the code is the tick rule on one entry of the table |
| Mlfq.Table.GlobalBoost | cs3523-xv6-26-m/kernel/proc.c:64-75 | the loop boosts every entry |
| Mlfq.Table.FindLevel | cs3523-xv6-26-m/kernel/proc.c:526-538 | the first pass finds the level that has a runnable process and no runnable one above it, or none exactly if nobody is runnable |
| Pipe.Ring.Write | cs3523-xv6-26-m/kernel/pipe.c:76-103 | accepts the bytes in order, and none once the reader is gone, the writer killed or its memory at an end; sleeps only when PIPESIZE are buffered; -1 exactly when the reader is gone or the writer killed before the end |
| Pipe.Ring.Read | cs3523-xv6-26-m/kernel/pipe.c:105-134 | delivers the next accepted bytes; sleeps exactly when empty with the writer open; a failed copy loses no byte |
| Pipe.Ring.Close | cs3523-xv6-26-m/kernel/pipe.c:58-74 | closes one end; the pipe is freed exactly when both are closed |
| Pipe.WrapPosition | cs3523-xv6-26-m/kernel/pipe.c:95-123 | wrapped 32-bit counters give the right ring positions |
| Pipe.FullIff | cs3523-xv6-26-m/kernel/pipe.c:88-88 | the full test is right after wraparound |
| Pipe.EmptyIff | cs3523-xv6-26-m/kernel/pipe.c:113-121 | the empty test is right after wraparound |
| Grep.Match | cs3523-xv6-26-m/user/grep.c:72-82 | true exactly when the text contains a substring in the language of the pattern, tied to the start by a leading ^ |
| Grep.MatchHere | cs3523-xv6-26-m/user/grep.c:84-96 | true exactly when a match starts at the position; the recursion ends |
| Grep.MatchStar | cs3523-xv6-26-m/user/grep.c:98-106 | true exactly when some run of fitting characters is followed by a match |
| Grep.StartsStar | cs3523-xv6-26-m/user/grep.c:98-106 | what a star means in the language |
| Grep.StartsOne | cs3523-xv6-26-m/user/grep.c:93-94 | what a literal or a dot means in the language |

## Left out

- RAID 1 and RAID 5 round trips: mirrors and stripe rows share addresses, so only the disjointness of the regions is stated; the contents of the parity buffer are not modelled.
- Failed-disk handling, which sets a mask that nothing reads.
- fork of swapped pages (`uvmcopy`), exec and the image it builds, and eviction during them; paging runs sequentially, as one process at a time.
- Paging.Pager.Lazy: page-table pages that `mappages` allocates during a fault, and its failure, are in PageTable, not here.
- PageTable.AddressSpace.PageIn: has the paths on which `frame_alloc` succeeds; the frame table of PA3 is in ClockVictim.
- PageTable.AddressSpace.Alloc: requires that no entry of the range is valid, because the code panics on a remap; Grow shows that no process has one.
- resident_pages and the other per-process statistics, and the latency average per process.
- PA3's own swap area; PA1, PA2 and PA4 copies of the kernel files.
- Device registers, UART, console, PLIC, boot, assembly, system call arguments, and the ordering of memory accesses.
- The bytes of bitmap blocks and of block numbers in indirect blocks: bits and entries are modelled, not their encoding; a block's bytes and its entries are two views, both zeroed on allocation.
- Directories, path names, the inode cache and the on-disk inode; `iupdate` only writes the inode back.
- LogCode.Log.Fetch: requires that the block is not locked, because the code would sleep.
- LogCode.Log.Acquire: requires that the block is not locked, because the code would sleep.
- LogCode.Log.WriteLog: requires that no logged block, log block or header is locked by a reader, because the code would sleep until it is released; the interleavings of a commit with other processes are in RedoLog.
- LogCode.Log.CommitHead: the same.
- LogCode.Log.InstallTrans: the same.
- LogCode.Log.Commit: the same.
- LogCode.Log.EndOp: the same, when it commits.
- BufferCache.Cache.Bread: requires that the block is not locked, because the code would sleep.
- BufferCache.Cache.Bpin: requires a block that is not pinned, as the log pins each block once.
- RedoLog: pins are a set, as the log pins each block once; blocks of a log operation are those a process holds locked.
- PageTable: the free list is a set, so the order of allocation is not captured; returning a page twice is excluded by the caller.
- Malloc.Allocator.Malloc: ends where MoreCore does.
- Malloc.Allocator.MoreCore: does not follow the program after a truncated request, because the header then claims memory that was never obtained.
- Paging.Pager.EvictPages: requires a free slot and a frame in use, because the code panics or loops for ever without them.
- Paging.Pager.UserWrite: writes whole blocks of a page, and hardware accessed bits are not modelled.
- Pipe.Ring.Write: the wakeups of the other end are not modelled; WaitExit has sleep and wakeup.
- Mlfq: one CPU; 32-bit overflow of tick and call counters is not modelled.
