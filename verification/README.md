# Proofs about the OS lab programs

This project models seven parts of a set of operating system lab programs and proves what they keep, over single calls
and over whole runs. Where the code does less than its own comments promise, the code is modelled as it is, a concrete
input shows the failure, and a lemma says exactly when the promise is kept.

`dafny verify dfyconfig.toml` checks everything.

## The parts

**OSPFS, the file system module** (`Words`, `BlockTree`, `FileSystem`, `Ownership`, `Resizing`, `Appending`, `Removing`,
`Image`, `FileSize`, `SizeChange`, `FileIO`, `Directories`, `Links`, `DirOps`, `Namespace`, `Runs`, `Contents`).
The mounted image is one array of 1024-byte blocks that is updated in place (`Image.Ospfs`). `FileSystem.ViewOf` says
what the bytes mean: geometry, bitmap, inodes, and the blocks of the data area as words and as bytes. A ghost map gives
every used block one owner: a file and a slot of its block tree. `Ownership.Consistent` is the invariant that nothing is
shared and nothing leaks; `Links.Sound` adds unique names and right link counts. `Runs` puts the operations together:
a step of any operation keeps `Sound` if and only if it does not start in a state that `Runs.Breaks` names. These are
states of a nearly full disk in which `add_block` leaves a pointer to a freed block behind; sizes within 1023 bytes of
2^32, for which `ospfs_size2nblocks` wraps around; and writes to an open file whose last name is gone, whose inode the
next create takes for a new file. `Contents` says what users rely on: over any run, names and bytes are what was put
there, until somebody touches that very name or file.

**The image formatter** (`BlockCache`, `Formatting`, `TreeWriting`, `Building`, `HostFiles`, `RootDirectory`,
`WholeImage`, `Finishing`, `MakingImages`).
The 16-slot write-back cache refines a flat disk. Above it stand `storeblk`, a second implementation of the block tree;
the loop of `writefile`; `allocdirentry`; `opendisk` and `finishfs`. `MakingImages.MakeImage` is the whole program for a
list of files: it says exactly when the program aborts and what the disk holds otherwise. `FinishedIsSoundIff` connects
the two programs: the image satisfies the invariant of the module, so that every run of the module keeps it, if and only
if at most 1024 blocks are in use and the files have different names.

**MD5** (`Md5`, `Md5Values`). The unrolled rounds, the buffering and the padding of `md5.c` against RFC 1321. The count
that is appended is right for every message shorter than 2^29 bytes; the exact condition is `CountIsRight`. Two of the
test values in `md5.c` are computed, step by step.

**The MiniprocOS kernel** (`Kernel`). The process table and the stacks as arrays that the system calls update. Runs in
which no blocked process is killed, no second process waits for the same target, and no circle of waits is closed never
deadlock; each of the three conditions is shown to be necessary for one step. As long as programs write to their own
stacks only, each finds its registers and its stack at its next turn as it left them.

**The ramdisk's lock and its encrypted storage** (`TicketLock`, `CryptDisk`). Waiting and the critical section behind it
are one step, as on a machine with one processor. Ticket order holds over all interleavings of requests, wake-ups,
signals, attempts and releases, also of releases that miscount; the holders' counts are right exactly as long as each
open file takes one lock and releases what it holds; no ticket is lost exactly as long as no signal comes at one of two
wrong moments, and then the queue never stops. Re-keying keeps every written byte readable as long as its piece is
marked, and which writes keep all written pieces marked is stated exactly, for every offset.

**The shell's executor** (`Shell`, `ShellTraces`). A command has a scoped meaning: programs read from and write to the
ends that their place in the command gives them. `execute_command` with its juggling of descriptors refines that meaning
and leaves the descriptor table as it found it. The outcome of system calls and programs is an oracle. `ShellTraces`
states without any descriptors which programs a command may run and what it reports, and shows that the executor's runs
are of that kind.

**The image-to-C encoder** (`ImageToC`). What it prints is read back, and denotes the image.

## Conventions

Bytes and 32-bit words are subset types of `int`; wrap-around is written out where it matters. Parameters that only
proofs need are ghost. A predicate named in a postcondition (`Grew`, `ChangedSize`, `Wrote`, `NameGiven`, `Hooked`,
`FileMade`, `Finished`, ...) describes the whole new state, what did not change included. Repaired versions of
`add_block` and `change_size` stand beside the originals in `SizeChange` and are not used by any other part.

## Model

| member | source | states |
|---|---|---|
| Words.BitsOfOr | Lab3-File-System/ospfsmod.c:105-108 | bitvector_set sets the bit it is asked to set and leaves every other bit of the word alone |
| Words.BitsOfAndNot | Lab3-File-System/ospfsmod.c:112-115 | bitvector_clear clears the bit it is asked to clear and no other |
| FileSystem.BitAfterStore | Lab3-File-System/ospfsmod.c:105-115 | after a bitvector store into the bitmap, bitvector_test gives the new value for that block number and the old one for every other |
| FileSystem.BitmapLayout | Lab3-File-System/ospfs.h:28-30 | the bit for block b is bit b % 8 of byte b / 8 of the bitmap; the module takes the first 1024 into account |
| FileSystem.StoreInodeWord | Lab3-File-System/ospfsmod.c:163-170 | a store through an inode pointer changes that field of that inode and nothing else that the image means |
| FileSystem.StoreInodeTarget | Lab3-File-System/ospfsmod.c:1602-1602 | copying a target and its zero byte over oi_symlink makes exactly that target readable there, and keeps size, type, link count and all other inodes |
| FileSystem.InodeLayout | Lab3-File-System/ospfs.h:112-122 | the fields of an inode are little-endian numbers at the byte offsets that its declaration gives them |
| Image.Ospfs.AllocateBlock | Lab3-File-System/ospfsmod.c:622-640 | the lowest free block among the first 1024 is marked allocated and returned; 0 is returned exactly when none is free, and nothing changes |
| Image.Ospfs.FreeBlock | Lab3-File-System/ospfsmod.c:655-673 | exactly one bit is set; numbers below the (rounded down) start of the data area are ignored |
| BlockTree.Grow | Lab3-File-System/ospfsmod.c:781-911 | appending a block keeps "the pointers name exactly the blocks this file owns", whatever the pointer regime |
| BlockTree.GrowDirect | Lab3-File-System/ospfsmod.c:799-802 | the direct regime meets that condition |
| BlockTree.GrowFirstIndirect | Lab3-File-System/ospfsmod.c:807-820 | so does the eleventh block, which brings the indirect block with it |
| BlockTree.GrowIndirect | Lab3-File-System/ospfsmod.c:817-820 | so does a block listed in an existing indirect block |
| BlockTree.GrowFirstIndirect2 | Lab3-File-System/ospfsmod.c:826-862 | so does the first block beyond the indirect block, which brings two pointer blocks with it |
| BlockTree.GrowSub | Lab3-File-System/ospfsmod.c:866-899 | so does a block listed in an existing block of the third level |
| BlockTree.GrowNewSub | Lab3-File-System/ospfsmod.c:881-896 | so does a block that needs another block of the third level |
| BlockTree.Shrink | Lab3-File-System/ospfsmod.c:937-1014 | dropping the last block leaves a well-formed shorter file whose other lookups are unchanged |
| BlockTree.ShrinkLastSub | Lab3-File-System/ospfsmod.c:995-1006 | also when a block of the third level, or the whole subtree, goes with it |
| BlockTree.PokeSub | Lab3-File-System/ospfsmod.c:183-198 | one word of a third-level block decides the lookup of one block of the file and of no other |
| BlockTree.TreeFrame | Lab3-File-System/ospfsmod.c:183-198 | lookups of a file whose own pointer blocks are untouched do not change |
| BlockTree.TreeLayout | Lab3-File-System/ospfsmod.c:183-198 | where the number of block k of a file is found: ten in the inode, 256 in the indirect block, and 256 in each block of the third level |
| Ownership.FileIsShort | Lab3-File-System/ospfsmod.c:629-635 | owned block numbers are distinct and below 1024, so no consistent file has more than 1024 blocks (pigeonhole): this bounds the scans |
| Ownership.Size2NBlocksIsCeiling | Lab3-File-System/ospfsmod.c:137-140 | the block count is the rounded-up quotient, except for the sizes whose rounding wraps around 32 bits, for which it is 0 |
| Ownership.ConsistentFromOneFile | Lab3-File-System/ospfsmod.c:781-1097 | if one operation changed one file only, and left it well formed, no block of the image is shared or leaked |
| Ownership.ResizedTransitive | Lab3-File-System/ospfsmod.c:1054-1097 | changes of one file compose, as long as no block that both ends need was dropped in between |
| Ownership.ResizedBack | Lab3-File-System/ospfsmod.c:1084-1096 | growing and shrinking back restores ownership and the free set |
| FileSize.LastSub | Lab3-File-System/ospfsmod.c:864-872 | the linear scan over the doubly indirect block stops at the block that division and modulo would give, and inside the block |
| FileSize.FirstUnused | Lab3-File-System/ospfsmod.c:874-877 | the linear scan of a pointer block finds its first unused word |
| FileSize.LinkFirstIndirect2 | Lab3-File-System/ospfsmod.c:826-862 | with one free block nothing changes, with two a pointer to a freed block stays in oi_indirect2, with three or more the block is in place |
| FileSize.LinkIndirect2 | Lab3-File-System/ospfsmod.c:864-899 | a block beyond the indirect block goes where lookups will look for it, or nothing changes |
| FileSize.LinkBlock | Lab3-File-System/ospfsmod.c:798-905 | succeeds exactly when the free blocks suffice for the block and its pointer blocks; otherwise only free blocks, or oi_indirect2, changed |
| FileSize.AddBlock | Lab3-File-System/ospfsmod.c:781-911 | 0 exactly when enough blocks are free: the file has one more, zeroed, block, its other lookups and all other files are unchanged; else -ENOSPC and the exact damage |
| FileSize.UsedSubs | Lab3-File-System/ospfsmod.c:985-989 | the scan counts exactly the third-level blocks in use |
| FileSize.UnlinkIndirect2 | Lab3-File-System/ospfsmod.c:976-1007 | the last block and the pointer blocks that served only it are back in the free set, with the pointers to them cleared |
| FileSize.RemoveBlock | Lab3-File-System/ospfsmod.c:937-1014 | the file loses its last block, if it has one; all other lookups, data and files stay; the freed blocks are free |
| SizeChange.AddThenRemove | Lab3-File-System/ospfsmod.c:781-1014 | remove_block after a successful add_block gives back ownership, the bitmap, the index-to-block map and the data |
| SizeChange.WhereGrowthStops | Lab3-File-System/ospfsmod.c:1061-1067 | where repeated appends run out of blocks, and that they leave a stale pointer exactly when two blocks are left at the boundary of the indirect block |
| SizeChange.AddBlocks | Lab3-File-System/ospfsmod.c:1061-1096 | the adding loop together with its jump to abort: succeeds exactly when all blocks fit; otherwise the file ends with one block fewer than it had |
| SizeChange.RemoveBlocks | Lab3-File-System/ospfsmod.c:1068-1078 | the removing loop keeps the blocks and bytes that are left |
| SizeChange.RollBack | Lab3-File-System/ospfsmod.c:1084-1095 | abort removes as many blocks as it is told |
| SizeChange.ChangeSize | Lab3-File-System/ospfsmod.c:1054-1097 | 0 exactly when the blocks fit: exact size, shared blocks and bytes kept, new blocks zero; otherwise -ENOSPC and one block fewer than before |
| SizeChange.ChangeSizeMeetsItsCommentIff | Lab3-File-System/ospfsmod.c:1017-1097 | change_size does what its comment says if and only if the size does not wrap around and the blocks fit, or the file was empty and no stale pointer arises |
| SizeChange.FullDiskIsConsistent | Lab3-File-System/ospfsmod.c:1027-1033 | the disk of the next row satisfies the invariant |
| SizeChange.RollBackLosesABlock | Lab3-File-System/ospfsmod.c:1063-1066 | a concrete failing growth: the failed addition is counted, so the file loses its only block |
| SizeChange.AddBlockRepaired | Lab3-File-System/ospfsmod.c:781-911 | add_block with oi_indirect2 cleared where its block is freed: a failure changes nothing but free blocks |
| SizeChange.ChangeSizeRepaired | Lab3-File-System/ospfsmod.c:1017-1097 | with failed additions not counted and the old size put back, the comment holds for every state and every size that does not wrap around |
| FileIO.InodeBlockNo | Lab3-File-System/ospfsmod.c:183-198 | the lookup by division and modulo gives the block that the file owns for that offset; 0 outside the file |
| FileIO.CopyToUser | Lab3-File-System/ospfsmod.c:1170-1196 | one round of the read loop moves the next bytes of the file, up to the end of a block |
| FileIO.Read | Lab3-File-System/ospfsmod.c:1153-1204 | at or before the end of the file exactly the slice, clipped to the size, is returned; for any position behind it -EIO if and only if its lower 32 bits are behind the end too, otherwise all bytes from there on |
| FileIO.CopyFromUser | Lab3-File-System/ospfsmod.c:1254-1282 | one round of the write loop overwrites the next bytes; only the first piece may start inside a block |
| FileIO.StoredRaw | Lab3-File-System/ospfsmod.c:1263-1282 | overwriting part of one data block overwrites that part of the file |
| FileIO.ExtendAndWrite | Lab3-File-System/ospfsmod.c:1243-1288 | a write that ends behind the end of the file, for any 64-bit position: the file gets the lower 32 bits of the end as its size and is written at the lower 32 bits of the position |
| FileIO.Write | Lab3-File-System/ospfsmod.c:1225-1288 | for ends up to 2^32 - 1024 it succeeds exactly when the file can be made long enough; then exactly the range is replaced; else -1 and what change_size left; beyond, the outcome of the previous row |
| FileIO.ExtensionReachesIff | Lab3-File-System/ospfsmod.c:1243-1250 | for any 64-bit position: after a change_size that succeeded, the file reaches to the end of the range if and only if the end does not exceed 2^32 - 1024 |
| FileIO.WriteReplaces | Lab3-File-System/ospfsmod.c:1225-1288 | a write inside the file or at its end: old prefix, new bytes, old rest |
| FileIO.WriteBeyondEnd | Lab3-File-System/ospfsmod.c:1240-1283 | a write beyond the end: old bytes stay, and the gap is zero from the first new block on, before that what the last block held |
| FileIO.OthersContent | Lab3-File-System/ospfsmod.c:1225-1288 | the bytes of every other file are what they were |
| FileIO.SetAttrSize | Lab3-File-System/ospfsmod.c:1107-1119 | a directory is refused; any other file goes through change_size |
| Directories.EntryAfterPut | Lab3-File-System/ospfsmod.c:1530-1537 | a name and an inode number stored in one slot are read back from it, and no other slot of the block changes |
| Directories.EntryLayout | Lab3-File-System/ospfs.h:189-194 | an entry is a little-endian inode number and up to 124 bytes of name, ended by a zero |
| Directories.NameMapIs | Lab3-File-System/ospfsmod.c:1303-1316 | the entries of a directory with unique names are a map from names to inode numbers |
| Directories.CountAllOneDir | Lab3-File-System/ospfsmod.c:567-594 | a link count changes by what the one directory that changed counts differently |
| DirOps.FindDirentry | Lab3-File-System/ospfsmod.c:1303-1316 | an entry is found if and only if the directory has the name, and it is the live entry with that name |
| DirOps.ScanForBlank | Lab3-File-System/ospfsmod.c:1354-1388 | the three scans find the first empty entry of the first 266 blocks |
| DirOps.ScanAgain | Lab3-File-System/ospfsmod.c:1374-1388 | the third scan looks at the indirect block again and finds nothing |
| DirOps.CreateBlankDirentry | Lab3-File-System/ospfsmod.c:1348-1405 | an empty entry found or added, with all names kept; -ENOSPC exactly when neither can be had |
| Links.NameAdded | Lab3-File-System/ospfsmod.c:1530-1537 | writing a new name into an empty entry adds exactly that name to the map |
| Links.NameRemoved | Lab3-File-System/ospfsmod.c:589-589 | clearing od_ino removes exactly that name |
| Links.TidyAfterRelink | Lab3-File-System/ospfsmod.c:567-594 | one entry and the link count of its inode changing together keep all link counts right |
| Namespace.ReserveName | Lab3-File-System/ospfsmod.c:1498-1507 | too long, already there, no room: the errors of create, link and symlink, in that order |
| Namespace.FindFreeInode | Lab3-File-System/ospfsmod.c:1509-1528 | the lowest inode from 2 on without links, or none |
| Namespace.InitFile | Lab3-File-System/ospfsmod.c:1516-1525 | an empty regular file with one link, the given mode and no pointer blocks; only ten bytes of the direct pointers are cleared, the rest is what the inode held before |
| Namespace.Create | Lab3-File-System/ospfsmod.c:1474-1556 | the exact error, or the name means the lowest free inode, which is an empty regular file with one link and the given mode; with no inode free it returns 0 and the name means nothing |
| Namespace.Link | Lab3-File-System/ospfsmod.c:1437-1459 | the name means the same inode, whose link count went up by one without wrapping; nothing else changed |
| Namespace.Symlink | Lab3-File-System/ospfsmod.c:1575-1627 | the name means a new link that holds exactly the target |
| Namespace.Unlink | Lab3-File-System/ospfsmod.c:567-594 | the name is gone, no other name changed, the link count went down by one, and the last unlink gives back all blocks |
| Namespace.NamedIsSound | Lab3-File-System/ospfsmod.c:1437-1459 | a name given together with one more link keeps the whole image sound |
| Namespace.UnnamedIsSound | Lab3-File-System/ospfsmod.c:1491-1549 | a name written next to inode number 0 is no name, and keeps the image sound |
| Namespace.AllReleased | Lab3-File-System/ospfsmod.c:591-592 | shrinking to nothing releases exactly the blocks of the file |
| Runs.Perform | Lab3-File-System/ospfsmod.c:567-1627 | each operation the kernel may ask for takes the image through one Step |
| Runs.LengthenedSoundIff | Lab3-File-System/ospfsmod.c:1225-1288 | a write behind the end of a file, wherever it ends, keeps the image sound if and only if the new size does not wrap around, the number of free blocks is not just the wrong one, and the file has a name or gets no bytes |
| Runs.StepSoundIff | Lab3-File-System/ospfsmod.c:567-1627 | a step that Linux may ask for keeps blocks, names and link counts sound if and only if it does not start in one of the states that Breaks names |
| Runs.RunIsSound | Lab3-File-System/ospfsmod.c:567-1627 | over any sequence of create, link, symlink, unlink, write and resize, of files with or without a name, that starts no step in such a state, every state is sound |
| Runs.ReuseLeaks | Lab3-File-System/ospfsmod.c:1509-1536 | create takes an inode with link count 0 for a new file; if it owned blocks, no assignment of owners makes the image consistent again |
| Runs.NamelessWriteLeaks | Lab3-File-System/ospfsmod.c:1225-1288 | a successful write to an open file without a name leaves the inode in just that state |
| Runs.NamelessWriteBreaks | Lab3-File-System/ospfsmod.c:1225-1288 | a concrete sound image, and a write of one byte, after which it is not |
| Runs.BlockHasOneUse | Lab3-File-System/ospfsmod.c:622-673 | in a sound image every allocatable block is free, or serves exactly one purpose of exactly one file |
| Contents.CreatedIsEmpty | Lab3-File-System/ospfsmod.c:1474-1556 | after a successful create the name means a regular file of the given mode that holds nothing |
| Contents.WrittenIsHeld | Lab3-File-System/ospfsmod.c:1225-1288 | after a successful write the file holds the bytes at the place they were written to |
| Contents.StepKeepsFile | Lab3-File-System/ospfsmod.c:567-1627 | no operation, failed ones and ones that break the image included, changes a byte of a file that it is not about |
| Contents.StepKeepsName | Lab3-File-System/ospfsmod.c:567-1627 | no operation takes away a name but the unlink of that name |
| Contents.Answers | Lab3-File-System/ospfsmod.c:1410-1627 | the error numbers: -36 for a long name or target, -17 exactly for a name that is taken, -28 for no room, -2 for unlinking a name that is not there |
| Contents.RunKeepsFile | Lab3-File-System/ospfsmod.c:567-1627 | over any run a file holds what it held, until it is written, resized, or loses its last name |
| Contents.RunKeepsName | Lab3-File-System/ospfsmod.c:567-1627 | over any run a name means the same file until it is unlinked |
| Contents.WrittenStays | Lab3-File-System/ospfsmod.c:1225-1288 | what a write has put into a file is still there after any run that does not touch that file |
| Contents.CreateWriteRead | Lab3-File-System/ospfsmod.c:1225-1556 | create, write, and whatever is done to other files: the name still means a regular file of that mode, holding exactly the bytes written |
| BlockCache.Cache.Search | Lab3-File-System/ospfsformat.c:219-228 | a hit, or the least recently used unpinned slot, or neither when all are pinned |
| BlockCache.Cache.GetBlk | Lab3-File-System/ospfsformat.c:208-263 | aborts exactly when it should; returns the latest logical contents; only an unpinned slot is evicted |
| BlockCache.Cache.Load | Lab3-File-System/ospfsformat.c:235-250 | a miss writes the victim back and reads the block, and no block number is cached twice |
| BlockCache.Cache.Touch | Lab3-File-System/ospfsformat.c:252-262 | the common end of hit and miss: the block is stamped and pinned, and clearing is a change of the logical disk |
| BlockCache.Cache.FlushDisk | Lab3-File-System/ospfsformat.c:714-721 | afterwards the disk itself is the logical disk |
| BlockCache.Evicted | Lab3-File-System/ospfsformat.c:235-250 | evicting a slot does not change the logical disk |
| BlockCache.Stamped | Lab3-File-System/ospfsformat.c:252-262 | a loaded and stamped slot restores the cache invariant |
| Formatting.FirstDataBlock | Lab3-File-System/ospfsformat.c:781-791 | the checks of main leave exactly one bitmap block and room for the inode blocks |
| Formatting.CanGetIff | Lab3-File-System/ospfsformat.c:208-262 | with a slot unpinned and blocks used as one kind, getblk aborts only beyond the end of the disk |
| Formatting.GotAndPut | Lab3-File-System/ospfsformat.c:255-268 | a block that was got and put back leaves all pins as they were |
| Formatting.Formatter.GetFresh | Lab3-File-System/ospfsformat.c:505-505 | getblk(nextb, 1, ..) succeeds exactly below the end of the disk and yields a zeroed block |
| Formatting.Formatter.StoreWord | Lab3-File-System/ospfsformat.c:318-360 | a store through a pinned block changes that word of that block |
| Formatting.Formatter.StoreInode | Lab3-File-System/ospfsformat.c:484-525 | a store through a pinned inode block changes that field of that inode |
| TreeWriting.MakeHooked | Lab3-File-System/ospfsformat.c:319-360 | a block hung into a tree belongs to the file as its next block, other files and earlier data stay, and exactly the blocks below nextb are in use |
| TreeWriting.HookDirect | Lab3-File-System/ospfsformat.c:321-322 | the direct branch |
| TreeWriting.HookFirstIndirect | Lab3-File-System/ospfsformat.c:325-333 | the branch that allocates the indirect block |
| TreeWriting.HookIndirect | Lab3-File-System/ospfsformat.c:330-333 | the branch that uses it |
| TreeWriting.HookFirstIndirect2 | Lab3-File-System/ospfsformat.c:337-355 | the branch that allocates the doubly indirect block and a block under it |
| TreeWriting.HookSub | Lab3-File-System/ospfsformat.c:343-355 | the branch that uses an existing block under it |
| TreeWriting.HookNewSub | Lab3-File-System/ospfsformat.c:346-355 | the branch that allocates another block under it |
| TreeWriting.FileFits | Lab3-File-System/ospfsformat.c:334-359 | no file on a disk of at most 8192 blocks has more blocks than the tree can hold |
| Building.Regimes | Lab3-File-System/ospfsformat.c:319-360 | the zero tests of storeblk tell the branches apart correctly, and "file too large" is unreachable |
| Building.StoreFirstIndirect2 | Lab3-File-System/ospfsformat.c:337-355 | the first block beyond the indirect block, through the cache; an abort exactly when two more blocks do not fit |
| Building.StoreIndirect2 | Lab3-File-System/ospfsformat.c:342-355 | later blocks beyond the indirect block, through the cache |
| Building.StoreBlk | Lab3-File-System/ospfsformat.c:319-360 | aborts exactly when the pointer blocks do not fit; otherwise the tree has the block where the module looks for it, and all pins are balanced |
| HostFiles.NextBlock | Lab3-File-System/ospfsformat.c:504-523 | one round of the loop of writefile |
| HostFiles.NextFits | Lab3-File-System/ospfsformat.c:504-523 | whether copying can go on after a block; a file that fills its last block costs one more cleared block |
| HostFiles.CopyBlocks | Lab3-File-System/ospfsformat.c:503-525 | the loop succeeds exactly when HostCost blocks are left; then the blocks hold the host file in order, and the size is its exact length |
| HostFiles.CopiedContent | Lab3-File-System/ospfsformat.c:504-525 | blocks filled like this, read in order up to the size, are the host bytes, also for exact multiples of 1024 |
| HostFiles.WriteContent | Lab3-File-System/ospfsformat.c:503-525 | an empty inode gets exactly the bytes of the host file; every other file keeps its blocks and bytes |
| RootDirectory.GetRootBlock | Lab3-File-System/ospfsformat.c:385-398 | the last block of the directory, found through the tree with all pointer blocks put back |
| RootDirectory.ScanBlock | Lab3-File-System/ospfsformat.c:402-406 | the first blank entry of one block |
| RootDirectory.FindBlank | Lab3-File-System/ospfsformat.c:385-408 | the first blank entry of the last block, or none |
| RootDirectory.NewDirBlock | Lab3-File-System/ospfsformat.c:410-419 | the directory gets a blank block at its end and the matching size; an abort exactly when the blocks do not fit |
| RootDirectory.AllocDirEntry | Lab3-File-System/ospfsformat.c:376-426 | the name goes into the first blank entry of the last block or of a new one; an abort exactly when it is too long or the disk is full |
| WholeImage.AllocInode | Lab3-File-System/ospfsformat.c:363-373 | inodes are handed out in order, an abort when there is none left |
| WholeImage.NameListed | Lab3-File-System/ospfsformat.c:451-484 | entry j of the root directory is the name of file j and inode j + 2 |
| WholeImage.NameFile | Lab3-File-System/ospfsformat.c:451-484 | entry and inode of a new file, with the exact condition for an abort |
| WholeImage.FileAdded | Lab3-File-System/ospfsformat.c:497-526 | the new file has its contents and the earlier files still have theirs |
| WholeImage.WriteFile | Lab3-File-System/ospfsformat.c:429-530 | writefile for a file without hard links: succeeds exactly when name, inodes and blocks suffice |
| Finishing.OpenDisk | Lab3-File-System/ospfsformat.c:294-308 | bitmap of ones, cleared inode blocks: an image with nothing in it |
| Finishing.MarkAllUsed | Lab3-File-System/ospfsformat.c:685-689 | the bits below nextb are cleared, and no others |
| Finishing.MarkBeyond | Lab3-File-System/ospfsformat.c:690-695 | the bits from the end of the disk to the end of the bitmap block are cleared, and no others |
| Finishing.WriteSuper | Lab3-File-System/ospfsformat.c:707-710 | the superblock says what the layout is |
| Finishing.SuperIs | Lab3-File-System/ospfs.h:63-68 | the bytes of the superblock: magic number, block count, inode count, first inode block, and zeros |
| Finishing.FinishFs | Lab3-File-System/ospfsformat.c:679-711 | a bit is set exactly for nextb <= i < nblocks, and nothing else that the image means has changed |
| MakingImages.MakeRoot | Lab3-File-System/ospfsformat.c:795-804 | inode 0 taken out of use, inode 1 an empty root directory |
| MakingImages.WriteFiles | Lab3-File-System/ospfsformat.c:810-811 | all files named on the command line: succeeds exactly when each of them goes in |
| MakingImages.MakeImage | Lab3-File-System/ospfsformat.c:740-825 | main without -r, -l and -c: the disk is a finished image of the files, or the exact condition for an abort; its superblock has the magic number and the sizes |
| MakingImages.InvIff | Lab3-File-System/ospfsformat.c:679-711 | the finished image satisfies the module's ownership invariant if and only if at most 1024 blocks are in use: the module cannot free higher ones |
| MakingImages.TidyIff | Lab3-File-System/ospfsformat.c:429-530 | names are unique and link counts right if and only if no two host files have the same last component: the formatter does not check |
| MakingImages.FinishedIsSoundIff | Lab3-File-System/ospfsformat.c:740-825 | formatter and module agree: a finished image is sound if and only if both hold |
| MakingImages.FilesAreFound | Lab3-File-System/ospfsmod.c:350-390 | on such an image every host file is found by name and its content is the host file |
| MakingImages.FinishedInodes | Lab3-File-System/ospfsformat.c:800-811 | in a finished image every host file has mode 0666 and one link, the root 0777, and all other inodes are clear |
| MakingImages.HostFilesStay | Lab3-File-System/ospfsmod.c:567-1627 | over any run of the module on such an image, a host file goes on being found under its name with its bytes, until it is touched itself |
| MakingImages.RunsOnFinishedImages | Lab3-File-System/ospfsmod.c:567-1627 | and every run of the module's operations on it keeps it sound |
| Md5.FFIsF | Lab3-File-System/md5.c:81-81 | the optimised selection function is F of RFC 1321 |
| Md5.FGIsG | Lab3-File-System/md5.c:82-82 | and with its arguments turned it is G |
| Md5.CodeAuxIsAux | Lab3-File-System/md5.c:77-84 | the four macros are the four functions of section 3.4 of RFC 1321 |
| Md5.RolMovesBits | Lab3-File-System/md5.c:48-61 | a rotation by s moves bit k to bit (k + s) mod 32 |
| Md5.LittleEndianBytes | Lab3-File-System/md5.c:100-115 | words are read and stored with the low-order byte first, and reading undoes storing |
| Md5.OneStep | Lab3-File-System/md5.c:118-156 | one unrolled line of transform is one step of the definition, with the registers changing places |
| Md5.Round1 | Lab3-File-System/md5.c:132-147 | the sixteen lines of the first round are steps 1 to 16 |
| Md5.Round2 | Lab3-File-System/md5.c:158-173 | the second round: steps 17 to 32 |
| Md5.Round3 | Lab3-File-System/md5.c:176-191 | the third round: steps 33 to 48 |
| Md5.Round4 | Lab3-File-System/md5.c:194-209 | the fourth round: steps 49 to 64 |
| Md5.Context.TransformBlock | Lab3-File-System/md5.c:91-216 | transform is the block function of section 3.4 of RFC 1321 |
| Md5.Context.Flush | Lab3-File-System/md5.c:227-233 | a full buffer is digested, a partial one is left |
| Md5.Context.Fill | Lab3-File-System/md5.c:234-251 | the buffer takes as much input as it has room for |
| Md5.Context.WholeBlocks | Lab3-File-System/md5.c:242-248 | whole blocks are digested where they are |
| Md5.Context.Update | Lab3-File-System/md5.c:225-252 | the registers are the fold over the whole blocks of everything seen so far, and the rest waits in the buffer |
| Md5.Context.BitCount | Lab3-File-System/md5.c:270-281 | the two words that the carry chain computes, in closed form |
| Md5.Context.PadTo | Lab3-File-System/md5.c:283-290 | one bit and zeros up to the limit |
| Md5.Context.DoFinal | Lab3-File-System/md5.c:263-322 | one or two more blocks: the padded message with the computed count is digested |
| Md5.Context.Final | Lab3-File-System/md5.c:325-330 | md5_final returns that digest, again and again if called again |
| Md5.CodeHighIsRightIff | Lab3-File-System/md5.c:270-281 | the high word of the count is right if and only if this condition on the length holds |
| Md5.CountBound | Lab3-File-System/md5.c:270-281 | it holds for every length below 2^29 bytes, and fails at 2^29 |
| Md5.CodeDigestIsDigest | Lab3-File-System/md5.c:263-322 | exactly then the padded message is that of sections 3.1 and 3.2 of RFC 1321, and then the digest is the digest of RFC 1321 |
| Md5.DigestOf | Lab3-File-System/md5.c:225-330 | the digest depends on the bytes only, not on how they were cut into calls of md5_update |
| Md5Values.EmptyDigest | Lab3-File-System/md5.c:28-29 | the digest of the empty message is the test value d41d8cd9..., computed by the definition; the code computes the same |
| Md5Values.AbcDigest | Lab3-File-System/md5.c:28-31 | the digest of abc is the test value 90015098... |
| ImageToC.Printer.PutByte | Lab3-File-System/fsimgtoc.c:29-37 | zeros are printed or skipped, and then the byte initializes its own position |
| ImageToC.Printer.Print | Lab3-File-System/fsimgtoc.c:17-43 | the pieces printed denote the image; with designators nothing is printed exactly for an image of zeros |
| ImageToC.DecimalExample | Lab3-File-System/fsimgtoc.c:29-37 | numbers are printed in decimal: the text of a designator and a value |
| ImageToC.ParseOfText | Lab3-File-System/fsimgtoc.c:17-43 | the printed text reads back as the tokens that were meant |
| ImageToC.TokensInitialize | Lab3-File-System/fsimgtoc.c:35-36 | line breaks mean nothing |
| ImageToC.Encode | Lab3-File-System/fsimgtoc.c:17-43 | for every byte string the printed text, read as the inside of an initializer by section 6.7.8 of ISO/IEC 9899:1999, denotes exactly that byte string; it is empty, which that section does not provide for, exactly for the empty string, and with designators for one of zeros |
| Kernel.EndedKeeps | weensyos1/mpos-kern.c:184-218 | ending a process that is not blocked wakes exactly its recorded waiter and keeps the bookkeeping of waiters |
| Kernel.KilledKeepsIff | weensyos1/mpos-kern.c:201-218 | kill keeps the bookkeeping if and only if its victim is not blocked |
| Kernel.WaitedKeepsIff | weensyos1/mpos-kern.c:219-247 | wait keeps the bookkeeping if and only if it does not overwrite another waiter |
| Kernel.WaitKeepsAcyclicIff | weensyos1/mpos-kern.c:238-244 | a wait that blocks keeps the table free of deadlock if and only if the target does not already wait, directly or not, for the caller |
| Kernel.FewerWaitersAcyclic | weensyos1/mpos-kern.c:152-218 | no other system call can make a circle of waits |
| Kernel.SomeoneCanRun | weensyos1/mpos-kern.c:395-403 | without a circle, some live process means some runnable process: schedule terminates |
| Kernel.PickApproaches | weensyos1/mpos-kern.c:395-403 | each pick of another process brings a runnable process nearer, going round the table |
| Kernel.RoundRobinIsFair | weensyos1/mpos-kern.c:395-403 | a process that stays runnable is picked within as many calls of schedule as there are slots |
| Kernel.SpawnedKeeps | weensyos1/mpos-kern.c:152-176 | fork and newthread keep bookkeeping, stack regions and absence of deadlock |
| Kernel.Kernel.Schedule | weensyos1/mpos-kern.c:395-403 | the next runnable process in cyclic order, or a spin exactly when there is none |
| Kernel.Kernel.FindEmpty | weensyos1/mpos-kern.c:296-302 | the first empty slot from 1 on, or none |
| Kernel.Kernel.CopyStack | weensyos1/mpos-kern.c:318-381 | the child's stack holds the same bytes at the same distance from its top, and no other memory changes |
| Kernel.Kernel.Fork | weensyos1/mpos-kern.c:276-315 | -1 exactly when the table is full; otherwise a runnable child in the first empty slot, with 0 in %eax, the parent's instruction pointer, and a stack pointer as far from the top of its stack as the parent's; the parent gets its number |
| Kernel.Kernel.NewThread | weensyos1/mpos-kern.c:157-182 | a runnable thread in the first empty slot, at the address given, with an empty stack; the caller gets its number; a full table falls through to yield |
| Kernel.Kernel.Yield | weensyos1/mpos-kern.c:177-182 | registers are saved and the next runnable process is picked |
| Kernel.Kernel.Exit | weensyos1/mpos-kern.c:184-200 | zombie with its status, waiter woken; without deadlock a spin means that no process is alive |
| Kernel.Kernel.Kill | weensyos1/mpos-kern.c:201-218 | exactly the valid victim ends with status 5 and its waiter is woken |
| Kernel.Kernel.Wait | weensyos1/mpos-kern.c:219-247 | a bad argument gives -1; a zombie gives its status and its slot becomes empty; otherwise the caller blocks and is recorded; a spin means a circle of waits |
| Kernel.ApplyKeeps | weensyos1/mpos-kern.c:131-247 | every proper system call keeps bookkeeping, stack regions and absence of deadlock |
| Kernel.CalledLeaves | weensyos1/mpos-kern.c:131-247 | a proper system call changes neither the saved registers nor the stack of any other process |
| Kernel.RunKeeps | weensyos1/mpos-kern.c:131-403 | over any run of proper system calls these hold, and while any process is alive one can run |
| Kernel.EndsAsZombie | weensyos1/mpos-kern.c:184-218 | exit and kill leave a zombie with the status given, or 5 |
| Kernel.ZombieStays | weensyos1/mpos-kern.c:184-247 | no other call changes a zombie |
| Kernel.StatusIsCollected | weensyos1/mpos-kern.c:184-247 | over any run the status given to exit, or 5 for kill, is what the next wait for that process returns, and its slot is free then |
| Kernel.RunLeavesOthers | weensyos1/mpos-kern.c:131-403 | over any run in which programs write to their own stacks only, a process finds its saved registers and every byte of its stack, at its next turn, as it left them |
| TicketLock.DrainSkipsKilled | Lab2-Encrypted-Ramdisk/osprd.c:313-331 | after a grant, ticket_tail passes only tickets of killed requests |
| TicketLock.InsertSortedIff | Lab2-Encrypted-Ramdisk/osprd.c:278-304 | the list of killed tickets stays sorted if and only if the ticket does not belong in front of two or more |
| TicketLock.DrainSortedKeeps | Lab2-Encrypted-Ramdisk/osprd.c:313-331 | on a sorted list no killed ticket that is still to come is forgotten |
| TicketLock.DrainCanForget | Lab2-Encrypted-Ramdisk/osprd.c:278-331 | on an unsorted one the ticket that is next to be served can be: a concrete list |
| TicketLock.GrantedInOrder | Lab2-Encrypted-Ramdisk/osprd.c:309-331 | granting the ticket being served keeps all waiting tickets ahead of ticket_tail |
| TicketLock.InterruptedInOrder | Lab2-Encrypted-Ramdisk/osprd.c:273-308 | so does a signal to a waiting request |
| TicketLock.NextInOrder | Lab2-Encrypted-Ramdisk/osprd.c:236-556 | every event, miscounting releases included, keeps grants in ticket order and ticket_tail behind every waiting request |
| TicketLock.RunInOrder | Lab2-Encrypted-Ramdisk/osprd.c:236-556 | so does any sequence of requests, wake-ups, signals, attempts and releases, whatever the counts say |
| TicketLock.NobodyIsPassed | Lab2-Encrypted-Ramdisk/osprd.c:427-429 | over any such sequence a request that waits goes on waiting, gets the lock, or is ended by a signal |
| TicketLock.NextIsAccountedIff | Lab2-Encrypted-Ramdisk/osprd.c:273-331 | an event keeps every ticket still to be served with a sleeper or in the list of killed tickets, and the next one with a sleeper, if and only if it is no unlucky signal: to the request being served while the next ticket is killed, or to one whose ticket belongs in front of two or more killed ones |
| TicketLock.RunNeverStops | Lab2-Encrypted-Ramdisk/osprd.c:236-556 | over any sequence without unlucky signals the ticket being served belongs to a sleeper, or is still to be drawn |
| TicketLock.UnluckyStops | Lab2-Encrypted-Ramdisk/osprd.c:273-277 | such a signal to the request being served leaves ticket_tail at a ticket that nobody has |
| TicketLock.StuckForEver | Lab2-Encrypted-Ramdisk/osprd.c:263-269 | a ticket_tail that belongs to no waiting request never moves again, and nobody gets the lock through the queue |
| TicketLock.QueueCanStop | Lab2-Encrypted-Ramdisk/osprd.c:273-277 | three requests and two signals that get there: a concrete run |
| TicketLock.NextIsRightIff | Lab2-Encrypted-Ramdisk/osprd.c:236-556 | an event keeps num_read and num_write equal to the true holders if and only if no file takes a second lock and no release miscounts |
| TicketLock.RunIsRight | Lab2-Encrypted-Ramdisk/osprd.c:236-556 | over any sequence of such events they are, and a writer holds the lock alone |
| TicketLock.ReleasedIsRightIff | Lab2-Encrypted-Ramdisk/osprd.c:490-556 | a release keeps num_read and num_write equal to the true holders if and only if the file holds the lock, or there is nothing to miscount |
| TicketLock.HoldingIsRightIff | Lab2-Encrypted-Ramdisk/osprd.c:308-396 | a grant keeps num_read and num_write equal to the true holders if and only if the file holds no lock yet |
| TicketLock.GrantableIff | Lab2-Encrypted-Ramdisk/osprd.c:263-269 | when the counts are right, a reader is kept out exactly by a writer, and a writer by any holder |
| TicketLock.UnmarkedIff | Lab2-Encrypted-Ramdisk/osprd.c:511-528 | a second release of a file that held the lock is refused if and only if the file is a writer or was the only reader |
| TicketLock.MarkedIff | Lab2-Encrypted-Ramdisk/osprd.c:308-528 | over any run of proper events from the start, a file is marked if and only if it holds the lock, or left it while other readers stayed and has not released it again while nobody held it |
| TicketLock.SecondReleaseLetsWriterIn | Lab2-Encrypted-Ramdisk/osprd.c:520-528 | a second release of the same open file lets a writer in beside a reader: a concrete run |
| TicketLock.Lock.DrainKilled | Lab2-Encrypted-Ramdisk/osprd.c:313-331 | the loop over the killed list |
| TicketLock.Lock.Grant | Lab2-Encrypted-Ramdisk/osprd.c:309-333 | the lock goes to the ticket being served, before every request that still waits, whatever the counts say |
| TicketLock.Lock.Acquire | Lab2-Encrypted-Ramdisk/osprd.c:236-417 | granted at once, put to sleep with the next ticket, or refused as a deadlock without using up a ticket; the ticket order is kept in every state, right counts if the file holds no lock yet |
| TicketLock.Lock.Resume | Lab2-Encrypted-Ramdisk/osprd.c:263-334 | a sleeper whose condition holds gets the lock, in ticket order, in every state |
| TicketLock.Lock.Interrupt | Lab2-Encrypted-Ramdisk/osprd.c:273-308 | a signal skips the ticket at once or notes it; ticket order and counts are kept |
| TicketLock.Lock.TryAcquire | Lab2-Encrypted-Ramdisk/osprd.c:457-488 | -EBUSY exactly when a holder is in the way; tickets are not looked at and none is used |
| TicketLock.TryMeetsItsCommentIff | Lab2-Encrypted-Ramdisk/osprd.c:461-464 | -EBUSY whenever OSPRDIOCACQUIRE would block or report deadlock, as the comment asks, if and only if a holder is in the way, or nobody is queued and there is no deadlock |
| TicketLock.TryOvertakes | Lab2-Encrypted-Ramdisk/osprd.c:461-488 | a reader that gets the lock although a writer waits and its own request would sleep: a concrete run |
| TicketLock.Lock.Release | Lab2-Encrypted-Ramdisk/osprd.c:490-556 | -EINVAL for an unmarked file; otherwise the counts follow; ticket order is always kept, right counts exactly under the stated condition; the file loses its mark exactly if it is a writer or was the only reader, and no other file does |
| CryptDisk.AxorB | Lab2-Encrypted-Ramdisk/osprd.c:708-716 | exactly the bytes of the range are combined with the key bytes from the given offset on |
| CryptDisk.AlignedMarksIff | Lab2-Encrypted-Ramdisk/osprd.c:874-893 | an aligned write leaves all its pieces marked if and only if no whole piece is zero and no partial zero piece was unmarked |
| CryptDisk.NonzeroRequestMarks | Lab2-Encrypted-Ramdisk/osprd.c:863-893 | a write at any position whose pieces are each not all zero marks all of them and unmarks none |
| CryptDisk.MarksElsewhereStay | Lab2-Encrypted-Ramdisk/osprd.c:863-893 | only marks of touched pieces change |
| CryptDisk.TouchedMarkedIff | Lab2-Encrypted-Ramdisk/osprd.c:863-893 | for any offset: a write leaves every piece it touches marked if and only if each whole piece behind a nonzero leading part is nonzero and each partial one nonzero or marked; behind a leading part of zeros each piece decides for the one before it, and the last one must be marked already |
| CryptDisk.CoveredIff | Lab2-Encrypted-Ramdisk/osprd.c:863-893 | for any offset: after the write every written byte is in a marked piece if and only if that condition holds |
| CryptDisk.ShiftLosesAPiece | Lab2-Encrypted-Ramdisk/osprd.c:863-873 | half a piece of zeros and a whole piece of ones: the ones are left unmarked |
| CryptDisk.NonzeroIsCovered | Lab2-Encrypted-Ramdisk/osprd.c:863-893 | it holds for every write without zero pieces |
| CryptDisk.WrittenDecrypts | Lab2-Encrypted-Ramdisk/osprd.c:835-900 | after a write every byte written so far decrypts to what was last written |
| CryptDisk.RekeyedDecrypts | Lab2-Encrypted-Ramdisk/osprd.c:748-772 | changing keys keeps every byte of a marked piece readable |
| CryptDisk.UncoveredIsLost | Lab2-Encrypted-Ramdisk/osprd.c:748-772 | a written byte outside the marked pieces is garbled by some change of keys |
| CryptDisk.Disk.LeadingPart | Lab2-Encrypted-Ramdisk/osprd.c:863-873 | the misaligned start of a request uses the matching key positions |
| CryptDisk.Disk.OnePiece | Lab2-Encrypted-Ramdisk/osprd.c:878-893 | one piece is marked or unmarked, then encrypted |
| CryptDisk.Disk.MarkAndCrypt | Lab2-Encrypted-Ramdisk/osprd.c:861-893 | the whole buffer is encrypted for its position, and the marks are those of MarksAfter |
| CryptDisk.Disk.Write | Lab2-Encrypted-Ramdisk/osprd.c:835-900 | the disk holds the encrypted bytes; every written byte stays in a marked piece if and only if the request meets that condition, at any offset |
| CryptDisk.Disk.CryptBuffer | Lab2-Encrypted-Ramdisk/osprd.c:811-824 | decryption at any position and length is the inverse of encryption there |
| CryptDisk.Disk.Read | Lab2-Encrypted-Ramdisk/osprd.c:775-834 | an authorised read returns the last written plaintext, any other the re-keyed bytes of the disk; the invariant survives with the new key |
| CryptDisk.Disk.RecryptMarked | Lab2-Encrypted-Ramdisk/osprd.c:748-769 | the loops over written_sectors re-encrypt exactly the marked pieces |
| CryptDisk.Disk.NewKey | Lab2-Encrypted-Ramdisk/osprd.c:733-773 | all written bytes stay readable under the new key |
| Shell.RedirectedPutsBack | Lab1-Profiling-Shell/execute-command.c:50-90 | saving one descriptor, pointing it elsewhere, and resetting it gives the table of before |
| Shell.BothPutBack | Lab1-Profiling-Shell/execute-command.c:50-90 | so it does for input and output together, although input is put back first |
| Shell.Process.Allocate | Lab1-Profiling-Shell/execute-command.c:50-74 | open, dup and pipe take the lowest free descriptor |
| Shell.Process.SetRedirect | Lab1-Profiling-Shell/execute-command.c:50-74 | descriptor 0 refers to the input file if there is one, descriptor 1 to the output file, or the process ends |
| Shell.Process.ResetRedirect | Lab1-Profiling-Shell/execute-command.c:76-90 | the table is the one from before set_redirect |
| Shell.Process.Execute | Lab1-Profiling-Shell/execute-command.c:93-296 | execute_command does what the scoped meaning of the command says, and a call that returns leaves the descriptor table exactly as it found it |
| Shell.Process.ExecutePipe | Lab1-Profiling-Shell/execute-command.c:215-268 | the two sides are connected by a new pipe and by nothing else, and both ends are closed again in the parent |
| Shell.Process.ExecuteLoop | Lab1-Profiling-Shell/execute-command.c:278-291 | while and until, for any number of rounds |
| Shell.EvalConnects | Lab1-Profiling-Shell/execute-command.c:93-296 | no program is ever connected to a pipe that was made for another part of the script |
| ShellTraces.EvalTraces | Lab1-Profiling-Shell/execute-command.c:93-296 | which programs run, in which order, under which conditions, and with what status a command returns, as a relation without descriptors and kernel calls: every run of execute_command is in it |
| ShellTraces.TracesInside | Lab1-Profiling-Shell/execute-command.c:93-296 | a command runs only programs that it names |
| ShellTraces.IfRunsOneBranch | Lab1-Profiling-Shell/execute-command.c:269-277 | once the test has returned, only programs of the first branch run if its status is 0, and only of the second otherwise |
| ShellTraces.SecondDecides | Lab1-Profiling-Shell/execute-command.c:199-268 | a sequence and a pipe return what their second part has just returned |
| ShellTraces.LoopEndsWithTest | Lab1-Profiling-Shell/execute-command.c:278-291 | while returns right after a test that failed, until right after one that succeeded, with the status of the last run of the body, or 0 |
| ShellTraces.IfExample | Lab1-Profiling-Shell/execute-command.c:269-277 | a concrete conditional: the test succeeds, and the first branch runs |
| ShellTraces.WhileExample | Lab1-Profiling-Shell/execute-command.c:278-291 | a concrete loop of one round |
| ShellTraces.PipeExample | Lab1-Profiling-Shell/execute-command.c:215-268 | a concrete pipe between two redirected programs: one new pipe, and the files at the ends |

## Left out

Parts of the programs that are not modelled:

- Lab1-Profiling-Shell: reading and printing commands, profiling output and timing, the programs that are run.
- Lab3-File-System/ospfsmod.c: directory listing, following links, Linux inodes and dentries, the unused index stubs, permissions and modes other than at creation.
- Lab3-File-System/ospfsformat.c: the options -r, -l, -c and -V (host directories, symbolic links, hard links found by digest, messages); reading host files is a byte sequence, without I/O errors; the byte order of the host is little-endian, so swizzling is the identity.
- Lab3-File-System/md5.c: big-endian hosts and md5_final_text.
- Lab3-File-System/fsimgtoc.c: the declaration around the initializer, and its command line.
- Lab2-Encrypted-Ramdisk/osprd.c: passwords and the list of authorised processes (whether a reader is authorised is a parameter), the request queue, and I/O and allocation failures.
- weensyos1: boot, ELF loading, special registers, console, sys_getpid, and user code other than its effect on registers.
- Fairness of the scheduler towards the sleepers of the ticket lock: a wake-up may happen at any time, or never.

Where a contract says less than the code, or asks for more:

- Image.Ospfs.FreeBlock: only for block numbers below 1024; for others the loop that looks for the bitmap block never ends.
- Image.Ospfs.AllocateBlock: one bitmap block, which is what the formatter makes; block 0 is not marked free.
- FileSize.LinkBlock: the branch for files that reach the maximum of the block tree is not there, because FileIsShort shows that no file gets beyond 1024 blocks.
- FileSize.RemoveBlock: the -EIO branches are not there, because the pointers they test for are present in every consistent image.
- FileSize.AddBlock: starts in states without a stale oi_indirect2, as all states of a run are; from a stale one it writes into a block that is free.
- SizeChange.AddBlocks: likewise.
- SizeChange.ChangeSize: likewise.
- SizeChange.AddBlockRepaired: likewise; it never leaves one behind.
- SizeChange.ChangeSizeRepaired: likewise.
- FileIO.SetAttrSize: likewise.
- FileIO.Read: copying to the user does not fail.
- FileIO.Write: when the lower 32 bits of the end exceed 2^32 - 1024, the file is left with that size and no blocks, and the bytes that the copying loop then writes, through pointers that are not the file's, are not modelled; copying from the user does not fail.
- Runs.StepSoundIff: for such a write, it is about the image before the copying loop.
- Namespace.Create: Linux inodes can always be made; the mode is a 32-bit word.
- Namespace.Symlink: Linux inodes can always be made.
- Namespace.Link: the source is no directory, as the kernel ensures.
- Namespace.Unlink: the dentry's inode is the one that the name stands for, and is no directory, as the kernel ensures.
- BlockCache.Cache.Search: not for block 0, which the program never asks for: slots that were never used carry that number.
- BlockCache.Cache.GetBlk: likewise.
- BlockCache.Cache.Load: likewise.
- MakingImages.MakeImage: the time stamps of the cache are unbounded integers; the static clock of getblk wraps around after 2^31 calls.
- RootDirectory.AllocDirEntry: for the root directory, which is the only one without -r.
- TicketLock.Lock.Acquire: the outcome of the two deadlock checks is a parameter, since the list of process numbers is not modelled; tickets are unbounded integers.
- CryptDisk.Disk.Write: a misaligned first piece lies within the request, and the request within the disk; otherwise the code leaves its buffer.
- CryptDisk.Disk.Read: likewise for an authorised reader.
- Shell.Process.Execute: descriptors 0 and 1 are open, and dup and dup2 succeed; a run that its oracle does not reach the end of has no outcome.
- Kernel.Kernel.Fork: the stack pointer of the caller is in its own region, which the kernel cannot check.
- Kernel.Kernel.Yield: likewise.
- Kernel.Kernel.Exit: likewise.
- Kernel.Kernel.NewThread: likewise; the address to start at, in %eax, is not negative.
- Kernel.Kernel.Kill: the kernel reads p_wait of the slot before it checks the slot number; for a number out of range that read is not modelled, and its result is not used.
- Kernel.Kernel.Wait: a woken process gets no exit status from the kernel, and none is claimed.
- Md5.Context.DoFinal: called once for each message, as md5_final does.
- Md5.OneStep: the sixty-four constants of RFC 1321 are written out, not computed from the sine.
