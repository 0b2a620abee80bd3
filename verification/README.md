# BRK kernel: verified models

This project models the parts of the BRK kernel that keep the most intricate state, in Dafny, and
proves what those parts are for. Sizes and constants are those of the kernel unless the file says
that they are parameters. `dafny verify dfyconfig.toml` checks everything.

| part | files | main results |
|---|---|---|
| brkfs block map and bitmap allocator | `Bitmap`, `BlockTree`, `Truncation`, `InodeMap`, `Growth`, `Brkfs`, `BrkfsInode` | truncation frees exactly the other side of the cut; create-on-demand lookup changes one entry of an injective map; the free counter is exact |
| brkfs file pages | `BrkfsFile` | pages read, written and cut through the block map are those of the page store that the page cache uses |
| user address spaces | `Cow`, `FileMap`, `Vma`, `UvmLink`, `MmapSearch`, `Uvm`, `UvmRun` | copy-on-write isolation over every run, with shared file mappings beside it; page tables allow nothing that the VMA forbids; VMA lists refine a page map |
| printk ring | `PrintkRecord`, `PrintkLog`, `PrintkRing`, `PrintkRun` | the ring refines an append-only log with a dropped prefix; any number of readers get records in order and count what they lose |
| TCP | `TcpSpec`, `TcpProtocol`, `TcpRun`, `TcpProgress`, `TcpRoundTrip`, `TcpSock`, `TcpSend`, `Checksum`, `TcpWire` | ordered delivery between two endpoints over a network that loses, duplicates and reorders; a send that succeeds was accepted; acknowledgements are exact and a round trip settles what is outstanding; built segments pass the receiver |
| page cache | `PageData`, `PageCacheSteps`, `PageCacheProof`, `PageCacheRun`, `PageCacheFlush`, `FlatFile`, `CachedFile` | the file is the writes that were asked for, and no update is lost, under concurrent writers, flushers and the shrinker; a flush stores what was on the dirty list; cached I/O refines a flat file |
| scheduler and sleep locks | `SchedSteps`, `SchedProof`, `SchedSafety`, `SchedRun` | safety of switch, wake-up and reaping over every interleaving; no lost wake-up; acquire returns with the lock held; run queues are first come, first served |
| page allocator | `BuddyBlocks`, `PageAlloc` | free, cached and live blocks partition the managed pages; no two free buddies; pages live while they are referred to |
| memblock | `MemRegions`, `Memblock`, `FreeMemory`, `FreeAll` | region sets denote exact unions and differences; boot hands over each free page once |
| block requests | `BlockIo`, `BlockQueue`, `BlockPath` | every slice of a buffer reaches its translated sector, through queue, merging and batches, with other requests around |
| device model | `DeviceModel`, `DeviceProof` | one prober at a time, removes match probes per device and driver, a probe is settled as its result says, over every race |

Two forms are used. Code that runs under one lock, or is serialised by its callers, is a class with the
fields of the source and methods with its loops, each proved against a specification function or an
abstract value. Code whose point is the interleaving (page cache, scheduler, device model, the two TCP
endpoints) is a state machine whose steps are the sections between lock operations; an invariant is
proved for every step of every thread and the results are stated of every reachable state. For TCP the
two are joined: the class `TcpSock` is proved to take exactly the steps of the state machine.

Where a property fails in the code the model keeps the code, shows a concrete input and states the exact
condition:

| property that fails | witness | when it holds |
|---|---|---|
| mprotect keeps processes apart | `Cow.WriteAddedAfterForkLeaks` | `Cow.ReprotectExact`, `Uvm.Kernel.Mprotect` |
| the address search finds room if there is any | `MmapSearch.RoomMissed` | `MmapSearch.SearchComplete` |
| a block allocated at boot lies in free memory | `FreeMemory.HugeSizeAccepted` | `FreeMemory.FitExact`, `FreeMemory.Alloc` |
| taking out a range is set difference | `Memblock.WrappedFree` | `Memblock.CutWraps` |
| region lists stay merged | `Memblock.EmptyCut` | `Memblock.CutIs` |
| aligned chunks have aligned frame numbers | `FreeAll.OffsetMisaligns` | `FreeAll.OffsetExact` |
| the free-block counter is exact | `Brkfs.DoubleFree` | `Brkfs.Volume.DataFree` |
| a reader of a socket sees every byte | `TcpSocket.ShortRead` | `TcpSocket.TcpSock.RecvMsg` |
| a send that returns success was accepted | `TcpSend.ShutdownOvertakes` | `TcpSend.SendMsgAccepted` |
| damage to one word is detected | `TcpWire.ZerosSwap` | `TcpWire.DamageDetected` |
| unregistering a driver unbinds its devices | `DeviceProof.SnapshotFails` | `DeviceProof.UnregisterUnbinds` |
| a flush stores every dirty page of its range | `PageCacheFlush.FlushMisses`, `PageCacheFlush.MissHappens` | `PageCacheFlush.FlushStores` |

## Model

| member | source | states |
|---|---|---|
| `BrkfsInode.Inode.Truncate` | src/fs/brkfs/inode.c:1510-1564 | For every size: a negative size is refused and a larger one changes no block. Otherwise every logical block below the cut keeps its physical block, every one from the cut on is a hole, the blocks no longer reachable are exactly those released in the bitmap, the free counter rises by exactly the drop in the block count, and only pointer blocks of the inode are rewritten |
| `BrkfsInode.Inode.TruncateDirect` | src/fs/brkfs/inode.c:1528-1541 | The direct slots become the cut of the old ones, and exactly the data blocks past the cut are released |
| `BrkfsInode.Inode.TruncateIndirect` | src/fs/brkfs/inode.c:1543-1560 | The three indirect trees become their cuts, only pointer blocks of the inode are rewritten, and exactly the blocks missing from the cut trees are released |
| `Brkfs.Volume.FreeIndirectRange` | src/fs/brkfs/inode.c:1431-1508 | The recursive walk leaves on disk exactly the tree `Cut(t)` and releases exactly the blocks of `t` not in it, for every shape of unshared tree and every cut; no other block is rewritten; the root survives iff anything below it does |
| `Brkfs.Volume.CutStraddled` | src/fs/brkfs/inode.c:1462-1507 | The pointer block that straddles the cut: rewritten, or released when nothing below it is kept |
| `Brkfs.Volume.FreeSlots` | src/fs/brkfs/inode.c:1473-1497 | The loop over its slots: each child is kept whole, cut or released, as the cut of the children says |
| `Brkfs.Volume.FreeTree` | src/fs/brkfs/inode.c:1401-1424 | Every block of the tree, pointer blocks included, is released once and nothing else is |
| `Brkfs.Volume.IndirectSpan` | src/fs/brkfs/inode.c:1392-1399 | The loop computes the number of logical blocks below a pointer block |
| `Truncation.CutAt` | src/fs/brkfs/inode.c:1431-1508 | Reading the cut tree: the same physical block below the cut, a hole from it on |
| `Truncation.CutStructure` | src/fs/brkfs/inode.c:1431-1508 | The cut tree has the right shape, shares no block and holds only blocks of the original |
| `Truncation.CutPruned` | src/fs/brkfs/inode.c:1499-1507 | A cut leaves no pointer block without data behind it, if there was none before |
| `InodeMap.CutAllMapped` | src/fs/brkfs/inode.c:1510-1564 | The cut of a whole inode, slot by slot, is the cut of its logical block map |
| `InodeMap.CutAllStructure` | src/fs/brkfs/inode.c:1510-1564 | The cut inode is well shaped, unshared and holds only blocks it held before |
| `InodeMap.CutAllCount` | src/fs/brkfs/inode.c:1510-1564 | The drop in the block count is the number of distinct blocks released |
| `BrkfsInode.Inode.GetBlk` | src/fs/brkfs/inode.c:1312-1390 | Lookup and creation for every offset: a hole is 0 without `create`; creating maps that logical block only, to a block that was free, takes only free blocks and rewrites only pointer blocks; an existing block is returned and nothing changes; past the capacity the call fails and changes nothing |
| `BrkfsInode.Inode.GetDirect` | src/fs/brkfs/inode.c:1322-1345 | A direct slot: an existing block is returned unchanged; a hole gives 0, or with `create` a block that was free, mapped at that logical block only |
| `BrkfsInode.Inode.GetIndirect` | src/fs/brkfs/inode.c:1347-1389 | The single, double and triple indirect slots: the result is what the block map says, and with `create` the map changes at that logical block only, by blocks that were free |
| `Brkfs.Volume.IndirectLookup` | src/fs/brkfs/inode.c:1251-1310 | The result is the physical block the tree maps the index to; with `create` the tree grows along one path only, by fresh blocks, and the map changes at that index only |
| `Brkfs.Volume.LookupInNode` | src/fs/brkfs/inode.c:1272-1309 | Below an existing pointer block the result is what the tree maps the index to; with `create` the tree grows along one path of fresh blocks |
| `Brkfs.Volume.FillSlot` | src/fs/brkfs/inode.c:1290-1304 | An empty slot gets a fresh child: a data block at level 1, an empty pointer block above; the map changes only below that slot, by a block that was free, and on a full volume nothing changes |
| `Brkfs.Volume.GetLeaf` | src/fs/brkfs/inode.c:1213-1249 | A slot of a level-1 pointer block: the block in it, 0 for a hole, or with `create` a block that was free, mapped at that index only |
| `Brkfs.Volume.SetPtrIfZero` | src/fs/brkfs/inode.c:1184-1211 | An empty slot takes the new block; a slot filled meanwhile wins and the new block goes back to the bitmap |
| `Brkfs.Volume.AllocZeroed` | src/fs/brkfs/inode.c:1141-1167 | A fresh, zeroed block, or no space and no change |
| `BlockTree.DigitUnique` | src/fs/brkfs/inode.c:1251-1310 | Composing digits and decomposing again gives the same digits: the decomposition is a bijection |
| `InodeMap.SlotUnique` | src/fs/brkfs/inode.c:1312-1390 | Slot and offset compose to a logical block that decomposes to the same slot |
| `BlockTree.AtIsData` | src/fs/brkfs/inode.c:1251-1310 | A mapped block is a block of the tree and none of its pointer blocks |
| `BlockTree.AtInjective` | src/fs/brkfs/inode.c:1251-1310 | Distinct indexes of an unshared tree map to distinct blocks |
| `InodeMap.MappedInjective` | src/fs/brkfs/inode.c:1312-1390 | Distinct logical blocks of a file never share a physical block |
| `InodeMap.MappedNotPointer` | src/fs/brkfs/inode.c:1312-1390 | A data block of a file is never one of its pointer blocks |
| `BlockTree.ViewFrame` | src/fs/brkfs/inode.c:1251-1310 | A tree none of whose blocks is rewritten stays what it was |
| `InodeMap.TreesFrame` | src/fs/brkfs/inode.c:1510-1564 | A file none of whose blocks is among the rewritten ones keeps its whole block map, so truncating or growing one file leaves the others alone |
| `BrkfsInode.Inode.CountTree` | src/fs/brkfs/inode.c:45-72 | The recursive walk returns the number of blocks of the tree, pointer blocks included |
| `BrkfsInode.Inode.AllocatedBlocks` | src/fs/brkfs/inode.c:74-97 | The total is the number of distinct blocks the inode owns |
| `BlockTree.CountIsSize` | src/fs/brkfs/inode.c:45-72 | In an unshared tree the count is the size of the set of blocks |
| `Brkfs.Volume.DataAlloc` | src/fs/brkfs/block.c:40-56 | Takes a block that was free, or fails, and only when every data block is in use; the counter stays the number of clear bits |
| `Brkfs.Volume.DataFree` | src/fs/brkfs/block.c:58-82 | Clears the bit. The counter rises even for a bit already clear, so it stays exact if and only if the block was in use (`Brkfs.DoubleFree` runs the other case) |
| `Brkfs.DoubleFree` | src/fs/brkfs/block.c:58-82 | A concrete volume with one free data block: freeing it once more makes the counter say two |
| `Brkfs.Volume.BitmapAlloc` | src/fs/brkfs/block.c:84-125 | Sets exactly one clear bit below the count, whichever bitmap block holds it; fails iff all are set |
| `Brkfs.Volume.AllocInBlock` | src/fs/brkfs/block.c:98-110 | One bitmap block of that scan, with the shorter last block |
| `Brkfs.Volume.BitmapFree` | src/fs/brkfs/block.c:127-154 | Clears exactly that bit; a bit out of range is refused |
| `Bitmap.FindNextZeroBit` | src/lib/bitmap.c:61-76 | The first clear bit from a start on, or the size if there is none |
| `Bitmap.AllocBit` | src/lib/bitmap.c:78-90 | Takes the lowest clear bit and changes no other; fails iff there is none |
| `Bitmap.FreeBit` | src/lib/bitmap.c:116-120 | Clears one bit; past the end nothing happens |
| `BrkfsFile.ReadPage` | src/fs/brkfs/file.c:19-58 | The page read is exactly what the block map says, holes as zeros; fails iff the block size is unsupported or the page lies past the last block; nothing changes |
| `BrkfsFile.WritePage` | src/fs/brkfs/file.c:60-109 | When it succeeds and nothing but zeros lies past the end of the file, the page reads back as written; no other page of the file is different, whether it succeeds or not; it fails only for an unsupported block size, past the last block, or on a full volume |
| `BrkfsFile.WriteBlock` | src/fs/brkfs/file.c:93-103 | One block, found or created: it reads back, every other block of the file reads as before; on failure all do |
| `BrkfsFile.TruncateFile` | src/fs/brkfs/inode.c:1510-1564 | Seen from the pages: every byte below the new last block is what it was, the rest reads as zeros; growing changes no byte |
| `BrkfsFile.TruncateBacked` | src/fs/brkfs/inode.c:1510-1564 | A page store that holds what the inode holds still does after both are truncated |
| `BrkfsFile.WriteBacked` | src/fs/brkfs/file.c:60-109 | A page store that holds what the inode holds still does after a page is written back to both |
| `PrintkRing.Ring.StoreLocked` | src/kern/printk.c:124-177 | Appends exactly one record, cut to the maximum payload, drops only a prefix of whole entries, and no entry that still fitted; every cursor stays on an entry boundary or behind the tail; an empty text changes nothing |
| `PrintkRing.Ring.MakeRoom` | src/kern/printk.c:150-152 | Drops oldest entries until the new one fits, and none that did not have to go |
| `PrintkRing.Ring.WriteRecord` | src/kern/printk.c:159-176 | The bytes from tail to head parse as the old entries and the new record |
| `PrintkRing.Ring.WriteWrap` | src/kern/printk.c:104-121 | The end of the ring becomes one padding entry and the head is at offset 0 |
| `PrintkRing.Ring.OldestRecordTotal` | src/kern/printk.c:62-80 | What the code computes from the bytes at the tail is the length of the oldest entry |
| `PrintkRing.Ring.DropOldest` | src/kern/printk.c:82-97 | The tail moves past exactly the oldest entry |
| `PrintkRing.Ring.Examine` | src/kern/printk.c:234-266 | At an entry boundary the bytes read back are that entry; the corrupt exits are not taken |
| `PrintkRing.Reader.Read` | src/kern/printk.c:208-292 | Returns the first stored record at or after the cursor, unaltered; the cursor advance is the bytes consumed plus the bytes added to the lost count; a short buffer consumes the record; the result is never the corrupt-record error |
| `PrintkRing.Reader.constructor` | src/kern/printk.c:195-206 | A reader starts on an entry boundary, at the tail or at the head |
| `PrintkRun.RunAll` | src/kern/printk.c:124-292 | One ring, any number of readers, any list of stores and reads: the log takes the stored messages in order; every reader gets stored records only, unaltered, in order, each at most once; what it passed over was evicted first; its cursor moved by the bytes consumed plus those counted as lost; no read finds the log corrupt |
| `PrintkRing.ParsesAppend` | src/kern/printk.c:124-177 | An entry written at the head extends the parse of the bytes by one entry and keeps every boundary |
| `PrintkRing.ParsesFrame` | src/kern/printk.c:124-177 | Bytes written from the head on, within one turn of the ring, leave the parse of the live entries intact |
| `PrintkRing.HistoryFrom` | src/kern/printk.c:208-292 | From any entry boundary on, the records of the remaining bytes are the records of the history from there on |
| `PrintkRecord.HeaderRoundTrip` | src/kern/printk.c:35-56 | Every header that fits its fields reads back from its bytes as it was written |
| `PrintkRecord.EntryRead` | src/kern/printk.c:46-80 | What the validity test, the total and the wrap flag say of an entry on the ring is what the entry is |
| `PrintkRecord.EntryFrame` | src/kern/printk.c:104-177 | A write ahead of an entry within one turn of the ring does not touch it |
| `PrintkLog.ReaderRun` | src/kern/printk.c:62-292 | The same over every walk of one reader through a log that satisfies the contracts of store and read |
| `UvmRun.ForkThenPerform` | src/mm/mmap.c:787-872 | Fork followed by any operations of any processes on anonymous and shared file memory: while the parent does not act its anonymous pages read as before the fork; while the child does not act it reads what the parent read at the fork |
| `UvmRun.PerformAll` | src/mm/mmap.c:504-941 | Every sequence of operations keeps the invariant in every state, and leaves every page-table entry inside a region and allowing nothing that region forbids; as long as no mprotect makes writable a frame shared without a mark, each step is seen in anonymous memory only by the process that acts |
| `UvmRun.Perform` | src/mm/mmap.c:504-941 | Any one operation, of either kind of region, keeps the invariant; under the sharing rule every anonymous page of every other process stays mapped, protected and reading as before |
| `UvmRun.RunLeavesOthers` | src/mm/mmap.c:787-872 | Over any run in which a process does not act, nothing it reads changes |
| `UvmRun.ForkIsolation` | src/mm/mm.c:466-490 | Parent and child agree at the fork and neither sees what the other does later |
| `UvmRun.KeepsWriteMay` | src/mm/mmap.c:874-941 | An mprotect that adds no write permission to a region makes no frame writable that is shared without a mark, so the run theorems apply |
| `Uvm.Kernel.Fork` | src/mm/mm.c:371-407 | The child has the parent pages with the same protections and bytes, and its shared file pages at the same file offsets; no page of an existing process reads differently |
| `Uvm.Kernel.CopyRegion` | src/mm/mm.c:199-369 | One region: each anonymous page of the child reads as the parent page; a shared file region names the same page-cache pages at the same offset; nothing else changes |
| `Uvm.Kernel.ForkOne` | src/mm/mm.c:289-344 | One page: shared with the copy-on-write mark when mapped, copied when it has a frame without a mapping, empty when never touched |
| `Uvm.Kernel.HandleFault` | src/mm/mmap.c:787-872 | For anonymous and shared file regions: succeeds iff a region covers the page and allows the access, which the mapping then allows too; no page of any process reads differently; both errors are stated exactly |
| `Uvm.Kernel.BreakCow` | src/mm/mmap.c:819-844 | The page gets a frame of its own with the same bytes and the protection of its region |
| `Uvm.Kernel.FaultShared` | src/mm/mmap.c:846-871 | A fault on a shared file page maps the page-cache page with the protection of the region and changes nothing anyone reads |
| `Uvm.Kernel.StoreByte` | src/mm/mmap.c:787-872 | A user store succeeds iff the region is writable. To anonymous memory it changes one byte of one page of one process; to a shared file page it is seen through every mapping of the same page-cache page and nowhere else |
| `Uvm.Kernel.Munmap` | src/mm/mmap.c:504-620 | As a map from page to kind, backing, protection and, for shared file pages, file offset: exactly domain restriction; everything else reads as before; page-cache pages let go of are marked dirty; bad ranges change nothing |
| `Uvm.Kernel.MunmapRegion` | src/mm/mmap.c:523-615 | One region of either kind is dropped, trimmed or split into what lies outside the range; the file offset moves with a left trim of a shared file region only |
| `Uvm.Kernel.ReleaseRange` | src/mm/mm.c:132-197 | The slots of the range are emptied, their frames released and mappings removed |
| `Uvm.Kernel.ReleasePage` | src/mm/mm.c:132-161 | One slot of either kind is emptied and unmapped; a frame is freed by its last owner only, and a page-cache page is marked dirty and put |
| `Uvm.Kernel.Mprotect` | src/mm/mmap.c:874-941 | For every protection: only protections inside the range change, file offsets included in what stays; afterwards no page-table entry in the range, of either kind of region, allows what the new protection forbids, and there is none if it forbids everything; every page of every process reads the same bytes; the sharing rule survives iff no frame shared without a mark becomes writable; bad ranges change nothing |
| `Uvm.Kernel.MprotectRegion` | src/mm/mmap.c:900-937 | A region is split at the ends of the range and its middle re-protected |
| `Uvm.Kernel.ProtectPages` | src/mm/mmap.c:925-936 | The page loop over a region inside the range |
| `Uvm.Kernel.ProtectOne` | src/mm/mmap.c:926-936 | One page: a pending copy-on-write is broken before access is taken away; the entry that is left allows at most the new protection, and goes if that allows nothing; the bytes stay |
| `Uvm.Kernel.FollowOne` | src/mm/mmap.c:669-703 | One shared file page: the entry allows at most the new protection, and goes if that allows nothing; no byte changes |
| `Uvm.Kernel.EntriesConfined` | src/mm/mmap.c:846-941 | In every state each page-table entry, anonymous or shared, lies in a region and allows no read, write or fetch that the region forbids |
| `Uvm.Kernel.MmapAnon` | src/mm/mmap.c:263-301 | Success adds one region on a range that was free, reading zeros, and changes nothing else; the result is the one the address search gives; failure changes nothing |
| `Uvm.Kernel.MmapShared` | src/mm/mmap.c:371-502 | Success adds one region on a range that was free, reading the page-cache pages of the file from the offset on, and changes nothing else; the address is the one the search gives; failure changes nothing |
| `Uvm.Kernel.FindRegion` | src/mm/mmap.c:622-644 | A region that covers the page, or none does |
| `Uvm.Kernel.Exit` | src/mm/mm.c:73-85 | All pages of the process go and no other process notices |
| `MmapSearch.ChooseAddr` | src/mm/mmap.c:85-131 | A fixed request gets its address iff it is in bounds and free; otherwise the loop computes `Search` and terminates because the top strictly decreases |
| `MmapSearch.SearchHighest` | src/mm/mmap.c:85-131 | What the search chooses is free and above every other free range below the top |
| `MmapSearch.RoomMissed` | src/mm/mmap.c:85-131 | A concrete address space with room in which the search finds none |
| `MmapSearch.SearchComplete` | src/mm/mmap.c:85-131 | If no region covers the page that lies the requested size below the top or below the start of any region, a test of the list alone, an address is found iff there is one |
| `MmapSearch.FindConflict` | src/mm/mmap.c:24-54 | The first region that overlaps the range, found iff the range is not free |
| `Vma.RemainsLookup` | src/mm/mmap.c:523-615 | What munmap leaves of a region describes exactly the pages outside the range, with the same frames, and the same file offsets where the region is of a shared file |
| `UvmLink.SpliceLookup` | src/mm/mmap.c:504-620 | Replacing a region by what is left of it restricts the whole page map |
| `UvmLink.PiecesLookup` | src/mm/mmap.c:734-785 | Splitting a region does not change what any page maps to |
| `Cow.WritableIsSole` | src/mm/mm.c:199-369 | In every sound state a page mapped writable is the only owner of its frame |
| `Cow.StoreIsPrivate` | src/mm/mmap.c:787-872 | A store through a writable mapping is read back at that page and nowhere else |
| `FileMap.FileStore` | src/mm/mmap.c:846-871 | A store to a shared page is seen through every mapping of the same page-cache page and nowhere else |
| `FileMap.FileAttach` | src/mm/mm.c:209-262 | A shared page attached to a space reads as the page-cache page, and no other page changes |
| `Cow.ForkPageKeeps` | src/mm/mm.c:289-344 | The copied page reads as the original and no other page changes |
| `Cow.ReplaceKeeps` | src/mm/mmap.c:708-732 | Giving a page its own copy changes nothing anybody reads |
| `Cow.DetachKeeps` | src/mm/mm.c:132-161 | Releasing a frame keeps exact counts; the frame is freed with its last owner |
| `Cow.ReprotectExact` | src/mm/mmap.c:874-941 | Re-protecting a page keeps the sharing rules iff it does not make writable a frame that is shared without a copy-on-write mark |
| `Cow.WriteAddedAfterForkLeaks` | src/mm/mm.c:332-343 | Concrete run outside the condition: a read-only page made writable after fork, whose store the other process reads |
| `TcpRun.StreamDelivered` | src/net/tcp.c:540-637 | Two endpoints, any loss, duplication and reordering, any run: in both directions the bytes accepted are a prefix of the bytes sent, and end of file from a FIN comes only after all of them |
| `TcpProgress.AcknowledgesExactly` | src/net/tcp.c:540-657 | Over every run: whatever an endpoint sends, a reply, data, a FIN or a retransmission, acknowledges exactly the bytes and the FIN it has taken by the end of that step, and a reply to a delivered segment always acknowledges |
| `TcpRoundTrip.DataRoundTrip` | src/net/tcp.c:540-593 | The outstanding chunk delivered to a peer with room is taken whole and answered, and that answer leaves the sender with nothing outstanding and SND.UNA at SND.NXT |
| `TcpRoundTrip.ChunkArrives` | src/net/tcp.c:557-593 | The outstanding chunk at a peer: with room all of it is accepted and answered, without room nothing is and there is no answer |
| `TcpRoundTrip.FinRoundTrip` | src/net/tcp.c:595-637 | A FIN delivered after every byte before it is taken and answered; the peer goes to CLOSE_WAIT or TIME_WAIT, the answer takes the sender from FIN_WAIT1 to FIN_WAIT2 or from LAST_ACK to CLOSED |
| `TcpRoundTrip.ClientSendCompletes` | src/net/tcp.c:840-935 | After any run whatever, a client with data outstanding and a server with room are two deliveries away from a finished send |
| `TcpRoundTrip.HandshakeCompletes` | src/net/tcp.c:367-538 | Three deliveries open the connection for all initial sequence numbers, each end expecting what the other sends next |
| `TcpRoundTrip.CloseCompletes` | src/net/tcp.c:994-1035 | After any run that leaves both ends established with nothing outstanding and no error, six steps close the connection with every byte of both streams delivered |
| `TcpRoundTrip.GivesUp` | src/net/tcp.c:1276-1335 | Five expiries each send what is outstanding again; the sixth gives up, and nothing is sent after that |
| `TcpProgress.RunWhole` | src/net/tcp.c:399-657 | Over every run: of the outstanding chunk the peer has all or nothing, a segment with it is on its way, and SND.UNA is at most what the peer has taken |
| `TcpSend.SendMsgAccepted` | src/net/tcp.c:840-935 | A send by either end, whatever run of both endpoints, timers and network it was part of: the socket ends as the run says, and if the call succeeds and no one shut the socket down meanwhile the peer has accepted exactly what was sent before and then the whole buffer |
| `TcpSend.ShutdownOvertakes` | src/net/tcp.c:994-1035 | A concrete run in which another thread shuts the socket down during the send: the wait ends without an error and the peer has accepted nothing |
| `TcpRun.SendSucceeds` | src/net/tcp.c:840-935 | From any sound state and over every run: when nothing of an end is outstanding, without error and without a shutdown of it, its peer has accepted every byte it had handed over |
| `TcpRun.ApplyKeeps` | src/net/tcp.c:399-657 | Every step of either endpoint, the timer or the network keeps the invariant, and streams only grow |
| `TcpProtocol.AckKeeps` | src/net/tcp.c:540-555 | An acknowledgement that clears the outstanding segment means its bytes were accepted |
| `TcpProtocol.PayloadIs` | src/net/tcp.c:557-593 | A payload taken at the expected number is the next piece of the stream of the sender |
| `TcpProtocol.PayloadReceiver` | src/net/tcp.c:557-593 | After taking an in-order payload the bytes accepted are still a prefix of the bytes sent |
| `TcpProtocol.FinIs` | src/net/tcp.c:595-627 | A FIN is taken only when every byte before it was |
| `TcpProtocol.GeneralKeeps` | src/net/tcp.c:540-657 | The whole path of a segment through a synchronised socket, with the reply it sends, keeps the invariant |
| `TcpProtocol.ListenKeeps` | src/net/tcp.c:367-397 | The child made for a SYN meets the invariant |
| `TcpProtocol.SendDataKeeps` | src/net/tcp.c:892-911 | A new chunk extends the stream; its segment is sound however late it arrives |
| `TcpProtocol.ResentOk` | src/net/tcp.c:1276-1335 | A retransmitted segment says what the original said |
| `TcpSocket.TcpSock.Rcv` | src/net/tcp.c:399-657 | The code, state by state, does what the endpoint of the protocol proof does, reply included |
| `TcpSocket.TcpSock.RcvSynchronised` | src/net/tcp.c:540-657 | From the ACK processing on, the code takes exactly the step of the protocol model, reply included |
| `TcpSocket.TcpSock.RcvAck` | src/net/tcp.c:540-555 | The acknowledgement section clears the outstanding segment exactly when the protocol model does |
| `TcpSocket.TcpSock.RcvPayload` | src/net/tcp.c:557-593 | The payload section takes exactly the payload step of the protocol model; an ACK is owed iff the payload was taken or out of order |
| `TcpSocket.TcpSock.RcvFin` | src/net/tcp.c:595-627 | The FIN section takes exactly the FIN step of the protocol model, in every state |
| `TcpSocket.TcpSock.RcvSynSent` | src/net/tcp.c:492-512 | A connecting socket takes exactly the step of the protocol model for every segment |
| `TcpSocket.TcpSock.RcvSynRecv` | src/net/tcp.c:514-538 | A child not yet established takes exactly the step of the protocol model for every segment |
| `TcpSocket.TcpSock.SendMsg` | src/net/tcp.c:840-935 | For everything that can happen while it sleeps, reads and shutdowns by other threads included: chunks are sent in order, each with nothing outstanding; success only with the whole buffer sent, none of it outstanding and no error; each other result stated |
| `TcpSocket.TcpSock.SendChunk` | src/net/tcp.c:899-908 | One chunk takes the next sequence numbers and is outstanding |
| `TcpSocket.TcpSock.Shutdown` | src/net/tcp.c:994-1035 | A FIN goes out iff the state allows one, otherwise nothing changes |
| `TcpSocket.TcpSock.Release` | src/net/tcp.c:1093-1159 | A FIN goes out iff the state allows one; what was queued is dropped and no reader is left |
| `TcpSocket.TcpSock.TimerTick` | src/net/tcp.c:1276-1335 | Resends what is outstanding, or gives up after the last retry |
| `TcpSocket.TcpSock.RecvMsg` | src/net/tcp.c:937-992 | Returns the oldest payload cut to the buffer of the caller, complete iff it fits: the rest of that payload is discarded (`TcpSocket.ShortRead`) |
| `TcpSocket.ShortRead` | src/net/tcp.c:937-992 | Two bytes read with a buffer of one: the second is gone |
| `TcpSocket.PlaySent` | src/net/tcp.c:840-935 | Over the moves of a send, whatever happens in between, the stream grows by exactly the chunks |
| `TcpWire.BuildSegment` | src/net/tcp.c:274-341 | The segment built, with or without options and for every payload length in range, passes the check of the receiver and never carries a zero checksum |
| `TcpWire.BuiltPasses` | src/net/tcp.c:274-341 | A checksum that complements the rest passes, and so does 0xffff in place of zero |
| `TcpWire.Receive` | src/net/tcp.c:414-459 | A segment is dropped iff it is short, has a bad data offset or fails the check; otherwise its fields, payload and MSS are read off |
| `TcpWire.RoundTrip` | src/net/tcp.c:274-341 | Parsing a built segment gives back fields, payload and MSS option |
| `TcpWire.DamageDetected` | src/net/tcp.c:256-272 | Changing one aligned 16-bit word of a passing segment is detected, iff it does not swap the two zeros (`TcpWire.ZerosSwap` is such a swap) |
| `TcpWire.ZerosSwap` | src/net/tcp.c:256-272 | A concrete passing segment whose first word is zero passes with all ones there too |
| `TcpWire.TcpChecksum` | src/net/tcp.c:256-272 | Zero iff the ones-complement sum over pseudo-header and segment vanishes |
| `TcpWire.Sum` | src/net/tcp.c:256-272 | The 32-bit accumulator holds the exact sum: it never overflows for up to 65535 bytes |
| `TcpWire.FindMss` | src/net/tcp.c:414-459 | The option loop returns the MSS option, skipping others, and stops on malformed ones |
| `Checksum.CsumAdd` | src/net/checksum.c:4-18 | The loop adds the 16-bit words, odd byte padded, modulo 2^32 |
| `Checksum.CsumFold` | src/net/checksum.c:20-26 | The result is the one 16-bit number that complements the sum modulo 65535 |
| `Checksum.ComplementUnique` | src/net/checksum.c:20-26 | A sum has only one 16-bit complement, so the contract of folding determines its result |
| `PageCacheProof.NoLostUpdate` | src/mm/pagecache.c:304-450 | In every reachable state of any number of readers, writers, flushers and shrinkers an up-to-date cached page equals its backing page, or is dirty, or is held by a thread that still owes it |
| `PageCacheProof.ShrinkerDropsClean` | src/mm/pagecache.c:457-537 | A page leaves the cache only by a shrinker that is its only user, and its contents are in the store |
| `PageCacheProof.ReadsLatest` | src/mm/pagecache.c:595-647 | A reader copies the page as the file is then; what the file is, over a run, `PageCacheRun.FileIsWrites` says |
| `PageCacheRun.FileIsWrites` | src/mm/pagecache.c:595-716 | Over every run: the file is the disk with the bytes of every write call put in, in the order of the copies; a thread between calls has copied its last call exactly once, unless the page could not be read, and then not at all |
| `PageCacheRun.ReadsWrites` | src/mm/pagecache.c:595-647 | Over every run: a reader copies the page it asked for as the calls copied before have left it |
| `PageCacheFlush.FlushStores` | src/mm/pagecache.c:361-450 | From the start of a flush to its end, whatever others do: a page of the range that was on the dirty list has been stored as the file then was, or a write of this flusher failed and it marked the page dirty again; with no failed write it has been stored |
| `PageCacheFlush.DirtyUntilStored` | src/mm/pagecache.c:374-450 | Over every run: until a dirty page is stored it stays in the cache, dirty or owed by a thread at work on it |
| `PageCacheFlush.FlushMisses` | src/mm/pagecache.c:361-450 | A page on the batch of another flusher about to begin it: a flush of that page can begin and end with the page dirty before, clean after and nothing stored |
| `PageCacheFlush.MissHappens` | src/mm/pagecache.c:361-450 | One write and one flush begun lead to such a state, in which the store does not hold the file |
| `PageCacheProof.DirtyIsListed` | src/mm/pagecache.c:361-450 | Every dirty page is on the dirty list or on the batch of exactly one flusher |
| `PageCacheProof.QuietIsStored` | src/mm/pagecache.c:419-450 | With no thread at work and nothing dirty the store is the file |
| `PageCacheProof.CachedStays` | src/mm/pagecache.c:457-537 | Nothing but a successful shrinker test takes a page out of the hash |
| `PageCacheProof.ApplyKeeps` | src/mm/pagecache.c:193-716 | Every step of every thread (insert, fill, copy, mark, flush, write, shrink, last put) keeps the invariant |
| `PageCacheProof.ReclaimableIsClean` | src/mm/pagecache.c:489-520 | A page that passes the shrinker test has no other user and its contents are stored |
| `CachedFile.Cached.Read` | src/mm/pagecache.c:595-647 | Returns exactly the bytes of the flat file, short at its end, and leaves the file as it was |
| `CachedFile.Cached.Write` | src/mm/pagecache.c:649-716 | The flat file with the bytes written, gap filled with zeros |
| `CachedFile.Cached.SetSize` | src/fs/brkfs/inode.c:940-955 | The file becomes the old one cut at the new size, or extended with zeros, whatever was cached, dirty or stale before |
| `CachedFile.Cached.FlushRange` | src/mm/pagecache.c:419-450 | The file is the same and no page in the range is dirty |
| `CachedFile.Cached.Shrink` | src/mm/pagecache.c:457-537 | The file is the same; the pages dropped are exactly the clean ones among those scanned from the old end of the list, dirty ones going to the other end; the scan stops at the goal or after as many pages as remain |
| `CachedFile.Cached.TruncatePages` | src/mm/pagecache.c:544-593 | Pages past the new end leave the cache, the straddling page ends in zeros, bytes below the end stay |
| `CachedFile.Cached.TruncateBlocks` | src/fs/brkfs/inode.c:1510-1564 | Truncation of the block map as the page store sees it; `BrkfsFile.TruncateBacked` shows that the inode does this |
| `CachedFile.Cached.WritePage` | src/fs/brkfs/file.c:60-109 | Writing the blocks below the end of the file stores the whole page, when the rest of it is zeros; `BrkfsFile.WriteBacked` shows that the inode does this |
| `CachedFile.Cached.Collect` | src/mm/pagecache.c:361-372 | The batch is exactly the dirty pages of the range and they leave the list |
| `CachedFile.Cached.FindOrCreate` | src/mm/pagecache.c:193-236 | The page is in the cache, a new one not up to date and an old one untouched; it is the most recently used, the others in their order; the file is the same |
| `CachedFile.Cached.ReadMappingPage` | src/mm/pagecache.c:319-349 | The page is in the cache with the bytes of the file, as the most recently used one |
| `FlatFile.WrittenIs` | src/mm/pagecache.c:649-716 | Pages overlaid at a position are the flat file written at that position |
| `SchedSafety.CurrentUnique` | src/kern/sched.c:247-312 | In every reachable state a task is current on at most one CPU, the one its fields name |
| `SchedSafety.QueueUnique` | src/kern/sched.c:79-140 | On every CPU `nr_running` is the length of the queue; a task is on at most one queue, once |
| `SchedSafety.AssertionsHold` | src/kern/sched.c:247-312 | The assertions of the scheduler hold whenever they are reached, `next->oncpu == -1` included |
| `SchedSafety.WokenIsSaved` | src/kern/sched.c:362-437 | A sleeper is taken off the sleep queue only when its context is saved and no CPU runs on it |
| `SchedSafety.ReapIsSafe` | src/kern/sched.c:532-576 | A zombie that passes the test of its parent is touched by no CPU and on no queue |
| `SchedSafety.NoTaskLost` | src/kern/sched.c:79-140 | A runnable task is on a CPU, about to be placed, or on a run queue |
| `SchedSafety.SleeperIsListed` | src/kern/sched.c:333-360 | A sleeping task whose lock is free is on the sleep queue |
| `SchedSafety.NoLostWakeup` | src/kern/sleeplock.c:14-39 | When a sleep lock and its spin lock are free nobody sleeps on it or is on the way to, switched out or not |
| `SchedSafety.HolderStays` | src/kern/sleeplock.c:14-39 | While a task holds a sleep lock only its own release ends that; that it holds it when the call returns is `SchedRun.AcquireHolds` |
| `SchedRun.AcquireHolds` | src/kern/sleeplock.c:14-26 | After a task has called acquire, whatever all CPUs do and however often it sleeps, the next thing it does in its own code finds it the holder |
| `SchedRun.FirstComeFirstServed` | src/kern/sched.c:79-140 | In every run the task at place i of a run queue is the one that pick number i of that CPU takes |
| `SchedRun.PickServes` | src/kern/sched.c:126-140 | What is picked is the head of the queue; only a CPU with an empty queue goes idle |
| `SchedRun.ExitWakesParent` | src/kern/sched.c:593-622 | After a task has exited, whatever other CPUs do, the fourth step of its CPU takes the parent off the sleep queue and makes it runnable if it is there |
| `SchedProof.ApplyKeeps` | src/kern/sched.c:79-622 | Every step of every CPU (yield, exit, sleep, wake, pick, switch, hand-off, create, reap, sleep lock) keeps the invariant |
| `PageAlloc.Allocator.PageAlloc` | src/mm/pgalloc.c:128-181 | The block is of the order asked for, aligned, was not in use and overlaps nothing in use; managed pages stay the same; free, cached and live blocks still partition them; no two free buddies; it fails only if nothing large enough is free after draining and shrinking |
| `PageAlloc.Allocator.TryAlloc` | src/mm/pgalloc.c:135-155 | One pass over the cache of the CPU and the free lists |
| `PageAlloc.Allocator.TakeFree` | src/mm/pgalloc.c:144-153 | The first order with a free block, or none from that order up |
| `PageAlloc.Allocator.SplitTo` | src/mm/pgalloc.c:166-180 | Halving leaves free halves whose buddies are not free |
| `PageAlloc.Allocator.FreeToBuddy` | src/mm/pgalloc.c:70-99 | Merging terminates with the same pages managed, no other live block touched and no two free buddies |
| `PageAlloc.Allocator.PageFree` | src/mm/pgalloc.c:221-232 | The block is no longer live, whichever way it goes |
| `PageAlloc.Allocator.PcpAlloc` | src/mm/pgalloc.c:32-50 | Returns a page that was cached for this CPU, now live; nothing iff its cache is empty |
| `PageAlloc.Allocator.PcpFree` | src/mm/pgalloc.c:52-68 | The page is cached for this CPU iff the cache is not full; otherwise nothing changes |
| `PageAlloc.Allocator.DrainAll` | src/mm/pgalloc.c:105-126 | No page stays cached on any CPU, live blocks and managed pages stay the same, no two free buddies |
| `PageAlloc.Allocator.PagePut` | src/mm/pgalloc.c:234-247 | The last reference frees the page and no other does |
| `PageAlloc.Allocator.Refer` | src/mm/pgalloc.c:234-247 | Over any list of gets and puts by callers that hold a reference: the counts are exact, a page stays allocated while it has been got more often than put, it is freed by the put that takes its count to zero, and no other block in use is touched |
| `PageAlloc.Allocator.Donate` | src/mm/pgalloc.c:221-232 | Boot memory handed over joins the managed pages |
| `PageAlloc.IsBuddyExact` | src/mm/pgalloc.c:196-219 | The flag and order test says yes iff the page starts a free block of that order |
| `BuddyBlocks.BuddyIs` | src/include/brk/pgalloc.h:68-71 | The buddy of an aligned block is aligned, another block, its own buddy, and the two make a block of the next order |
| `BuddyBlocks.SplitOk` | src/mm/pgalloc.c:166-175 | Splitting a block gives two buddies, and all blocks stay aligned and apart |
| `BuddyBlocks.SplitCover` | src/mm/pgalloc.c:166-175 | Splitting a block changes no page that blocks cover |
| `BuddyBlocks.MergeOk` | src/mm/pgalloc.c:70-99 | Merging two buddies keeps all blocks aligned and apart and the pages covered the same |
| `BuddyBlocks.SplitNoBuddies` | src/mm/pgalloc.c:166-175 | Splitting a block in use makes no two free buddies |
| `BuddyBlocks.FreedNoBuddies` | src/mm/pgalloc.c:70-99 | Freeing a block whose buddy is not a free block of its order makes no two free buddies |
| `BuddyBlocks.OneBlock` | src/mm/pgalloc.c:128-181 | A page is in at most one block, whatever kinds the blocks are |
| `Memblock.RegionSet.AddRegion` | src/mm/memblock.c:65-128 | Union, sorted and merged, for every region including one whose end wraps; room exactly when the filled list fits, and always when 2*cnt+1 <= max; where the code panics nothing has changed |
| `Memblock.RegionSet.Pass` | src/mm/memblock.c:89-117 | The counting pass counts what the inserting pass inserts |
| `Memblock.RegionSet.InsertRegion` | src/mm/memblock.c:34-42 | The array holds the old regions with the new one at its index |
| `Memblock.RegionSet.MoveRegions` | src/mm/memblock.c:27-32 | The move is right for overlapping source and target, in both directions |
| `Memblock.RegionSet.MergeRegions` | src/mm/memblock.c:44-63 | The in-place loop leaves exactly the list with all touching neighbours joined |
| `Memblock.RegionSet.RemoveRegion` | src/mm/memblock.c:162-198 | The part, its end taken modulo 2^64, is cut out of its region; fails iff a split needs room and there is none |
| `Memblock.CutIs` | src/mm/memblock.c:162-198 | The result of a cut that does not wrap is the set difference, and fully merged iff the part is not empty or lies at an end |
| `Memblock.CutWraps` | src/mm/memblock.c:162-198 | For every part that is not empty, the cut is merged and exactly the difference iff base plus size does not wrap at 2^64 |
| `Memblock.WrappedFree` | src/mm/memblock.c:220-231 | A concrete size near 2^64 passes the test of the code, and two overlapping regions are left |
| `Memblock.EmptyCut` | src/mm/memblock.c:162-198 | Removing nothing from the middle of a concrete region leaves two regions that touch |
| `Memblock.RegionSet.FindRegion` | src/mm/memblock.c:200-218 | The first region that contains the range, its end taken modulo 2^64, or none does |
| `Memblock.RegionSet.Free` | src/mm/memblock.c:220-231 | Set difference if the end does not wrap and one region holds the range; nothing if none does; a wrapped end is cut as the code cuts it |
| `MemRegions.AddedIs` | src/mm/memblock.c:65-128 | The list computed is sorted, disjoint, merged, at most 2n+1 long and denotes exactly the union |
| `FreeMemory.NextMemRange` | src/mm/memblock.c:248-304 | The next range of memory that is not reserved, strictly after the last with a gap; none iff none is left; the position always advances |
| `FreeMemory.FreeRanges` | src/mm/memblock.c:248-304 | To exhaustion: increasing, disjoint, non-empty ranges whose union is exactly memory minus reserved |
| `FreeMemory.Alloc` | src/mm/memblock.c:140-160 | First fit: the ranges tried are the free memory in order, none before the last fits, and the last is where the address comes from; if the alignment divides 2^64 and memory ends far enough below it, the block is aligned, above the minimum and all of it was free; it is then reserved and nothing else is |
| `FreeMemory.FitExact` | src/mm/memblock.c:140-160 | The block lies inside its range and above the minimum iff aligned start plus size does not wrap at 2^64 |
| `FreeMemory.HugeSizeAccepted` | src/mm/memblock.c:140-160 | A concrete size near 2^64 for which a range of 4096 bytes is accepted |
| `FreeAll.FreeAll` | src/mm/memblock.c:365-389 | The page allocator gets exactly the frames, numbered from `phys_offset`, of the pages wholly inside memory minus reserved, each once |
| `FreeAll.FreeRange` | src/mm/memblock.c:322-361 | The whole pages of one range go over in aligned chunks, each frame once, and are then reserved |
| `FreeAll.OffsetExact` | src/include/brk/pgalloc.h:23-66 | Frame numbers counted from `phys_offset` keep the alignment of every chunk iff `phys_offset` is aligned to the largest block |
| `FreeAll.OffsetMisaligns` | src/include/brk/pgalloc.h:23-66 | Memory at 0x80200000: a chunk aligned in physical memory whose frame number is not aligned to its order |
| `FreeAll.ChunkOrder` | src/mm/memblock.c:335-350 | The loop finds the largest order whose chunk is aligned and fits |
| `FreeAll.PageOrder` | src/include/brk/pgalloc.h:73-80 | The smallest order that holds the pages, or the maximum |
| `FreeAll.WholeIsInside` | src/mm/memblock.c:365-389 | A page free all over lies in exactly one of the ranges handed over |
| `BlockIo.FillBio` | src/dev/base/blkdev.c:190-202 | One bio, within its limits, carries exactly the next slices of the buffer |
| `BlockIo.Translate` | src/dev/base/bio.c:35-50 | The sector on the whole disk is the sector plus the offsets of all partitions on the way |
| `BlockIo.WindowInside` | src/dev/base/bio.c:35-50 | A partition, however nested, is a window inside its disk |
| `BlockIo.MergedSlices` | src/dev/base/bio.c:228-255 | A contiguous merged request carries exactly the slices of its bios |
| `BlockIo.QueueRq` | src/dev/block/virtio_blk.c:250-291 | The batches sent carry exactly the slices of the request in order, within the segment limit; on an error a prefix of them, ending with the batch that failed |
| `BlockPath.SubmitBuf` | src/dev/base/blkdev.c:170-210 | From the buffer to the device, through bios, partition translation, queue, merging, batches and completion, while other bios come, the worker runs and the queue may die: if the call succeeds, every 512-byte slice of the buffer has reached exactly its translated sector, in order, once and in the direction asked for; otherwise a prefix has; never anything outside the window of the device; for every length, out-of-range requests refused |
| `BlockPath.SubmitNext` | src/dev/base/blkdev.c:183-206 | One bio of the call carries the next slices in the direction asked for, and is refused with nothing changed or accepted and waited for |
| `BlockPath.SubmitBio` | src/dev/base/bio.c:177-255 | Refused exactly for a bad size, block size, range or a dead queue, and then nothing changes; otherwise accepted at its sector on the whole disk |
| `BlockPath.WindowOnDisk` | src/dev/base/bio.c:35-50 | Inside the window of a nested partition is inside the disk |
| `BlockPath.WorkerEnd` | src/dev/base/bio.c:52-102 | The worker sends the current request and completes its bios; nothing already accepted, completed or received is changed |
| `BlockQueue.Queue.Take` | src/dev/base/bio.c:52-102 | The first request goes to the driver, contiguous and of one kind |
| `BlockQueue.Queue.Enqueue` | src/dev/base/bio.c:228-255 | The bio joins the queue last: in the last request iff it is a read or write of the same kind that continues it, otherwise in one of its own |
| `BlockQueue.Queue.Complete` | src/dev/base/bio.c:52-102 | Each bio of the request completes once with its status, and has had a prefix of its slices on the device, all of them if the status is 0 |
| `BlockQueue.Queue.FailAll` | src/dev/base/bio.c:52-102 | On a dead queue every accepted bio has completed once, in order, the rest with the device error |
| `BlockQueue.OutcomesBios` | src/dev/base/bio.c:52-102 | Completions match the bios given to the driver one to one, in order |
| `BlockQueue.FlushIsAlone` | src/dev/base/bio.c:228-255 | A flush is a request of its own: nothing is merged across it |
| `DeviceProof.OneProber` | src/dev/base/device.c:100-180 | Over all races a device is probed by one caller at a time |
| `DeviceProof.RemovesMatch` | src/dev/base/device.c:100-441 | For each device and each driver: successful probes equal remove calls of that driver made, plus owed by a thread, plus one while the device is bound to it or its probe unsettled |
| `DeviceProof.DeferredListed` | src/dev/base/device.c:86-98 | Every deferred device is on the deferred list; what is on it is registered, and deferred or being probed; which outcome defers a device is `DeviceProof.ProbeSettles` |
| `DeviceProof.ProbeSettles` | src/dev/base/device.c:141-174 | Over every run, with others at work between the return of the probe and its settling: success binds, a deferral puts the device on the deferred list, any other error leaves it unbound and off the list; a removed device or unregistered driver goes first |
| `DeviceProof.DeferredRetried` | src/dev/base/device.c:86-174 | A deferred device can be tried again with any registered driver, and a success binds it and takes it off the list |
| `DeviceProof.UnregisterUnbinds` | src/dev/base/device.c:399-441 | Once no thread is unregistering it, nothing is bound to an unregistered driver, unless the snapshot of that unregistration could not be allocated |
| `DeviceProof.SnapshotFails` | src/dev/base/device.c:277-441 | A concrete run in which the snapshot cannot be allocated: the driver is unregistered, no thread is at work and the device is still bound to it |
| `DeviceProof.ApplyKeeps` | src/dev/base/device.c:86-441 | Every step of every thread (add, claim, return, settle, delete, remove, unregister, snapshot, unbind) keeps the invariant |

## Left out

- Hardware and drivers: UART, RTC, PLIC, virtio transport, page-table bits, TLB fences and traps; a page table is a map from page to frame and flags.
- System-call argument copying, procfs text, console output: wrappers with no deep property.
- tmpfs, brkfs directories, orphan list, superblock features and CRC: the feature write in getblk is taken to succeed.
- String functions, fd table, routes, hashes, heap sort: easy members.
- Allocation failure and I/O errors, except the ones the contracts name; the paths that undo a half-done fork or munmap are not modelled.
- Bitmap: bits are an array of booleans; packing them in 64-bit words is not modelled.
- Brkfs.Volume.FreeIndirectRange: states the walk for trees that share no block, the case in which block pointers are sound; block numbers that are not valid are holes.
- BrkfsInode.Inode.GetBlk: the block buffer cache and its locks are left out; pointer blocks are a map from block number to contents.
- PrintkRing.Ring.StoreLocked: requires flags without the wrap bit, which is all that the callers pass; head and tail are unbounded instead of 64 bits wide.
- PrintkRing.Reader.Read: the trylock variant, which returns early when the lock is taken, is not modelled.
- Uvm.Kernel.HandleFault: addresses are page numbers, protections are page-table flags, in which write includes read as in the source; the test against the end of user space is left out because no region lies above it.
- Uvm.Kernel.MmapAnon: heap and stack lie outside the VMA list and are given as `fixtures`; the remembered `mmap_top` is the parameter `top`; flag checks are left out.
- Uvm.Kernel.MmapShared: starts after the checks of flags and file modes and the growing of the file; the page-cache pages are given as `cached`; private file mappings, which copy the file at once, are left out.
- Uvm.Kernel.Munmap: unmapping and freeing of a range are taken page by page instead of in two loops.
- Uvm.Kernel.Mprotect: the flags of the region are set after its page loop instead of before; the loop is not cut short by a failed allocation, which would leave pages mapped beyond the new flags.
- Uvm.Kernel.PageAlloc: frames are handed out by choice; the allocator itself is the class `PageAlloc.Allocator`.
- UvmRun.Perform: an operation of a process that does not exist is skipped.
- TcpRun.StreamDelivered: fewer than 2^31 bytes each way, sends that return no error; RST, window, listener teardown and freeing of sockets are left out; a timer may fire at any time.
- TcpRoundTrip.DataRoundTrip: says what two deliveries do, not that the network makes them.
- TcpSend.SendMsgAccepted: no one releases the socket during the call, whose caller holds the file; a gap between dropping the lock and the wait counts as part of the wait.
- TcpSocket.TcpSock.SendMsg: copying from user space and its failure are left out; a segment the network layer refuses counts as lost.
- TcpSocket.TcpSock.Shutdown: the receiving side, which only sets a flag, is left out.
- PageCacheFlush.FlushStores: the range is given in pages, and the order in which a batch is written is left to choice.
- PageCacheFlush.FlushMisses: goes from a flusher that is about to begin the page; one that is further back in its batch is not covered.
- PageCacheProof.NoLostUpdate: dirty lists are sets, the shrinker may pin any page, a page is written as a whole and a failed write may leave anything behind; truncation is left to the serial model, as the inode lock serialises it.
- CachedFile.Cached.Write: one mapping, successful I/O, calls serialised by the inode lock.
- BrkfsFile.WritePage: requires bytes between 0 and 255; the inode write that follows the blocks and I/O errors are left out.
- CachedFile.Cached.Shrink: the cache holds the pages of one file and no page is in use.
- SchedRun.ExitWakesParent: a parent that is only on its way to the sleep queue is not covered, as the exiting CPU wakes it without the wait lock.
- SchedSafety.QueueUnique: choice of CPU, time slices and the lists of children are left to choice; the idle task only yields.
- PageAlloc.Allocator.PageAlloc: what the page cache gives up is the parameter `shrunk`; pages outside managed memory have zero flags.
- FreeAll.FreeRange: requires a reserved set that is not empty, as boot reserves the kernel image first (src/riscv/mm/init.c:129), a range that ends a page below 2^64, and an offset that meets `FreeAll.OffsetExact`.
- FreeMemory.Alloc: failure is a value of its own; the source returns address 0.
- BlockPath.SubmitBio: the null checks, creation of the worker and allocation of the request are left out; a sleeping submitter is a wait for its completion.
- BlockIo.QueueRq: a flush, which carries no data, is left out.
- DeviceProof.RemovesMatch: reference counts, parent lists, devtmpfs and the contents of the match function are left out; the snapshot is taken in one step, which misses no device that could be bound.
