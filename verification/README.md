# A verified model of norse-exfat and the VeraCrypt container core

This project models two parts of VaultPony and proves what they are for.

**The exFAT implementation** (`core/norse-exfat`). The device is an array of bytes with a history of its images, one after every
write. `Volume` shows it as a FAT, an allocation bitmap and cluster contents, and every read and write of the upper layers goes
through methods proved to do to the bytes what they do to that view. Above it are the loops of the source, each a method with a
loop: bitmap allocation, chain walking, slot search and slot runs, entry sets and their checksums, file data through fragmented
chains, directory growth, and the operations `create_file`, `make_dir`, `write_file`, `truncate_file`, `rename` and `remove`,
with the independent reader beside them. `ExfatFs` carries a ghost catalogue: which chain each owner has, which node each slot
belongs to, what each entry set records. The invariant `Consistent` ties it to the disk; from a freshly formatted device on,
every operation keeps it, with exact conditions where the code does not, and `Runs` puts them together for whole runs. Crash
statements speak about every view in the history. `Realisations` goes the other way: a well-formed account of chains and entry sets
is met by a consistent volume and that volume by an image, so that a device holding it can be mounted and operated on; the inputs
named below are closed methods that do so.

**The encrypted container** (`core/vc-crypto`, `core/vc-format`). A cipher layer is an arbitrary bijection of data units with its
inverse, where the difference matters one that works on independent 16-byte blocks, a key-derivation function an arbitrary function whose shorter outputs are prefixes of longer ones, CRC-32 an arbitrary
function. On these: cascades, the read-modify-write view, hidden-volume protection, header building and parsing, header search,
password change, creation, keyfiles.

The two formats are also stated on their own, without the functions that read and write them: `RollingSums` (checksums bit by
bit), `SetLayouts`, `FreshLayouts` and `DiskLayouts` (entry sets, a fresh volume and the view, byte by byte), `Foldings` (names, by
the entries of the up-case table), `HeaderLayouts` and `SlotLayouts` (headers and header slots) and `KeyfileRegisters` (the keyfile
register as a polynomial remainder); what the code writes and accepts is proved to be that.

The exFAT format is that of Microsoft's exFAT File System Specification: section 3.4 (boot checksum), section 4 (FAT),
section 6.2.1 (end of directory), section 6.3.3 (SetChecksum), section 7.1 (bitmap), section 7.2 (up-case table), section 7.4.8
(timestamps), section 7.6 (stream extension). The prefix property of key derivation is section 5.2 of RFC 8018.

`dafny verify dfyconfig.toml` checks everything.

## Where the code does not do what its comments say

- Truncating to nothing (`core/norse-exfat/src/write.rs:532`) frees the consecutive clusters from the first one, not the chain:
  nothing is leaked if and only if the chain occupies that run (`FileTruncates.ZeroTruncationExact`), and nobody else is harmed if
  and only if the run meets no other owner's cluster (`FileTruncates.ZeroTruncationHarms`; an input:
  `Counterexamples.TruncationTakesBystander`).
- A new set can land behind an end-of-directory slot (`core/norse-exfat/src/write.rs:233`): found and listed if and only if there
  was none ahead (`Visibilities.MadeIsFound`; an input: `Counterexamples.HoleHidesEntry`).
- Removing a directory (`core/norse-exfat/src/write.rs:564`) looks only at what it lists: consistent afterwards if and only if
  nothing hidden is recorded in it (`Removals.RemovalExact`; an input: `Counterexamples.RemovalOrphans`).
- Moving a directory into itself or its own subtree is not refused (`core/norse-exfat/src/write.rs:362`): every node still leads to
  the root if and only if the target lies outside it (`Trees.RenameKeepsTree`; an input: `Counterexamples.MoveCutsOff`). When the
  directory goes directly into itself and has to grow for the new entry, that entry records the length from before: the volume stays
  consistent if and only if there was room (`ExfatFileSystem.ExfatFs.Rename`; an input: `Counterexamples.SelfMoveBreaks`).
- A failed allocation keeps the bits it set (`core/norse-exfat/src/alloc.rs:95`): they become spare clusters of the catalogue.
- Hidden-volume protection guards byte ranges while the cipher works on 16-byte blocks, so a hidden area that starts inside a block
  is not safe. `create_hidden` (`core/vc-format/src/create.rs:195`) aligns it only relative to the end of the container: safe if and
  only if the container size is a multiple of 16 (`ProtectedDevices.CreatedHiddenSafeExactly`). An empty protected region still
  guards one point between two bytes (`ProtectedDevices.RefusesExactly`).
- The up-case table's final 0xFFFF is appended without the overflow check (`core/norse-exfat/src/upcase.rs:75`): a table has 0x10001
  entries if and only if its last word is 0xFFFF in opening position and the words before it give exactly 0x10000
  (`UpcaseTables.OverflowsExactly`; an input: `UpcaseTables.OverflowingTable`).

## Model

| member | source | states |
|---|---|---|
| ExfatFileSystem.ExfatFs.WriteFile | core/norse-exfat/src/write.rs:417-465 | From a consistent volume a write succeeds exactly when the clusters it needs are free; the volume stays consistent; the file's bytes are the old ones, zero-extended to the offset, with the buffer laid over them; every other file, and every path, is as before; at every device write before the end all other nodes are intact and no live entry heads fewer clusters than its length needs; a failure costs only spare clusters |
| ExfatFileSystem.ExfatFs.TruncateFile | core/norse-exfat/src/write.rs:505-557 | Growing writes zeros with all the guarantees of a write; shrinking leaves the prefix, keeps every path and, at every device write, every other file; shrinking to nothing frees the run of consecutive clusters from the first: it succeeds exactly when the bitmap covers that run, leaves at every device write every node alone that has no cluster in it, and keeps the volume consistent, leaked clusters counted spare, when the run meets nobody else's cluster; otherwise exactly the run is freed and no set of spare clusters restores ownership |
| ExfatFileSystem.ExfatFs.CreateFile | core/norse-exfat/src/write.rs:341-407 | Fails without a trace when the parent does not resolve or a search finds the name; otherwise succeeds exactly when the name has 1 to 255 units and the clusters needed are free, keeps the volume consistent and other files as they were at every device write; the name counts as taken exactly when some visible entry differs from it only in units the up-case table gives the same entry; afterwards a search finds the entry if and only if no end-of-directory slot lay ahead of the first room for it |
| ExfatFileSystem.ExfatFs.MakeDir | core/norse-exfat/src/write.rs:341-413 | The same for a directory, whose first cluster is allocated, zeroed and owned before its entry appears |
| ExfatFileSystem.ExfatFs.Remove | core/norse-exfat/src/write.rs:560-592 | Removes exactly the named node and frees its chain; refuses a directory that lists anything; the volume stays consistent if and only if nothing is recorded in the removed directory, hidden entries included; other nodes are intact at every device write |
| ExfatFileSystem.ExfatFs.Rename | core/norse-exfat/src/write.rs:362-401 | Moves the node to the new parent and name over the same clusters, length and kind; the volume stays consistent if and only if the move does not put a directory into itself and grow it for that; found afterwards if and only if no end-of-directory slot lay ahead; in every case other nodes are intact at every device write and the entry, once written, stays published |
| ExfatFileSystem.ExfatFs.Lookup | core/norse-exfat/src/lib.rs:191-213 | The reader's path lookup reports exactly the node that the writer's path resolution names: its name, kind, length and first cluster, or NotFound exactly when the writer finds nothing; it is the first visible entry whose name the up-case table does not tell apart from the one asked for, and there is one exactly when the lookup succeeds |
| ExfatFileSystem.ExfatFs.ReadFileOf | core/norse-exfat/src/lib.rs:218-270 | On a consistent volume a read at any offset into a buffer of any size returns exactly that slice of the file's content, short only at its end, and leaves the rest of the buffer alone |
| ExfatFileSystem.ExfatFs.LocatePath | core/norse-exfat/src/write.rs:164-194 | Path resolution returns the node the path names, with the set's slots, first cluster, length and kind, or the error of the first missing component |
| ExfatFileSystem.ExfatFs.CreateEntry | core/norse-exfat/src/write.rs:341-358 | One directory: refuses an existing name, else promises what CreateFile and MakeDir promise |
| Mounts.FormatAndOpen | core/norse-exfat/src/format.rs:69-179 | Formatting a device of any accepted size and opening it gives a file system object that satisfies the invariant every operation relies on, with an empty root |
| Runs.Execute | core/norse-exfat/src/write.rs:341-592 | Any sequence of creations, writes, truncations, removals and renames, from any consistent volume and whether each succeeds or fails, is at each step what the operation promises and ends in a consistent volume, if at the moment of each call a removed directory hides nothing, a moved one does not go below itself, and a file truncated to nothing frees no cluster of others |
| Runs.FormatAndExecute | core/norse-exfat/src/format.rs:69-179 | The same from a device that is formatted and opened first: at every moment the invariant holds and every node leads to the root |
| Runs.Perform | core/norse-exfat/src/write.rs:341-592 | One operation of a run, with what a caller has to see to at that moment |
| Runs.CarefreeIsGuarded | core/norse-exfat/src/write.rs:341-557 | Creations, writes and truncations to more than nothing meet their conditions whatever the state |
| Runs.FilesNeedNoCare | core/norse-exfat/src/write.rs:362-592 | Removing or moving a file meets its condition on every consistent volume; only directories call for care |
| Runs.UnfragmentedNeedsNoCare | core/norse-exfat/src/write.rs:530-540 | Truncating to nothing meets its condition whenever the chain occupies a run of consecutive clusters |
| Runs.StepKeeps | core/norse-exfat/src/write.rs:341-592 | At each step only what the operation names may differ, only a removal makes a node disappear, and every node still leads to the root |
| Runs.RunKeepsTree | core/norse-exfat/src/write.rs:341-592 | At every moment of a run the invariant holds and every node leads to the root |
| Runs.UnnamedFileSurvives | core/norse-exfat/src/write.rs:341-592 | A file no operation of a run names is at its end in the same place with the same bytes, however many others were created, written, truncated, moved and removed |
| Catalogues.OwnershipMeans | core/norse-exfat/src/write.rs:213-592 | What ownership says about the disk alone: chains are in range, without repetition, ended and pairwise disjoint, and their union, up to spare clusters, is the set of allocated clusters |
| Catalogues.RecordKeepsConsistent | core/norse-exfat/src/write.rs:341-357 | Recording a node whose set is on disk and whose chain is linked and unowned keeps the invariant |
| Catalogues.RemovalKeepsConsistent | core/norse-exfat/src/write.rs:578-590 | Dropping a childless node and freeing its chain keeps the invariant |
| Catalogues.RootGrowthKeepsConsistent | core/norse-exfat/src/write.rs:233-247 | Lengthening the root directory by blank clusters keeps the invariant |
| Catalogues.SparesMayDiffer | core/norse-exfat/src/alloc.rs:90-111 | Clusters marked allocated that nobody owns may come and go without touching the invariant |
| FileWrites.UpdateKeepsConsistent | core/norse-exfat/src/write.rs:252-278 | Giving a node a new chain and length, with its set rewritten, keeps the invariant |
| Removals.RemovalExact | core/norse-exfat/src/write.rs:560-592 | After a removal the invariant holds if and only if no node is recorded under the removed one |
| FileTruncates.ZeroTruncationExact | core/norse-exfat/src/write.rs:530-540 | After freeing the consecutive run that truncation to nothing frees, ownership is intact with no cluster leaked if and only if the chain occupied exactly that run |
| FileTruncates.ZeroTruncationHarms | core/norse-exfat/src/write.rs:530-540 | Some set of spare clusters restores ownership if and only if the freed run met no cluster of another owner; that set is then the old one with the chain added and the run taken out |
| Outcomes.TruncateSafe | core/norse-exfat/src/write.rs:530-557 | At every device write of a truncation every node is kept that has no cluster in the freed run; for a length above zero that is every other node |
| Counterexamples.TruncationTakesBystander | core/norse-exfat/src/write.rs:530-540 | A device mounted on a consistent volume with a fragmented file: the real truncation to nothing succeeds, frees the other file's only cluster and leaks one of its own, and no set of spare clusters restores ownership |
| Counterexamples.HoleHidesEntry | core/norse-exfat/src/write.rs:213-247 | A device mounted on a consistent volume whose root has two slots left: the real creation succeeds and the name is not found afterwards |
| Counterexamples.MoveCutsOff | core/norse-exfat/src/write.rs:362-401 | A device mounted on a consistent volume with two nested directories: the real rename of the outer one below the inner one succeeds, the volume is consistent, and the directories no longer lead to the root |
| Counterexamples.SelfMoveBreaks | core/norse-exfat/src/write.rs:362-401 | A device mounted on a consistent volume with a full directory: the real rename of it into itself succeeds and records the length from before its growth, so the volume is no longer consistent |
| Counterexamples.RemovalOrphans | core/norse-exfat/src/write.rs:560-592 | A device mounted on a consistent volume with a directory that hides a file behind an end-of-directory slot: the real removal succeeds and leaves the file without a directory |
| Realisations.ImageHolds | core/norse-exfat/src/alloc.rs:22-67 | Every volume of the model is what some image of a device holds: FAT words, bitmap bits and cluster contents at their places |
| Realisations.Realised | core/norse-exfat/src/write.rs:213-337 | Every account of chains and entry sets that is well formed is met by a volume that satisfies the invariant |
| Trees.RenameKeepsTree | core/norse-exfat/src/write.rs:362-401 | After a move every node still leads up to the root if and only if the new parent was not the moved node and did not lie below it |
| Trees.CreationKeepsTree | core/norse-exfat/src/write.rs:341-358 | Creation keeps every node under the root |
| Trees.RemovalKeepsTree | core/norse-exfat/src/write.rs:560-592 | Removal of a childless node keeps every node under the root |
| ExfatFileSystem.ExfatFs.NodeAtFolds | core/norse-exfat/src/lib.rs:191-213 | Paths whose components differ only in units the up-case table gives the same entry lead to the same directory and node, and are taken or free together |
| Foldings.FoldsAlike | core/norse-exfat/src/upcase.rs:19-24 | Folding identifies exactly the names of one length whose units are, place by place, equal, or both in the table with the same entry, or one in the table with the other, outside it, as its entry |
| Foldings.AlikeByTable | core/norse-exfat/src/upcase.rs:19-24 | Names of units inside the table with the same entries are the same name; a unit inside that maps differently, or a unit outside that differs, keeps them apart |
| Foldings.SearchFolds | core/norse-exfat/src/write.rs:92-148 | A search finds the first visible node of the directory whose name the table's entries do not tell apart from the one sought, and nothing exactly when there is none |
| Foldings.AlikeHash | core/norse-exfat/src/write.rs:24-35 | Names the table does not tell apart have the same hash |
| Visibilities.FindMeans | core/norse-exfat/src/write.rs:92-148 | A search returns a visible node of the directory whose folded name matches, and fails exactly when no visible one does |
| Visibilities.MadeIsFound | core/norse-exfat/src/write.rs:233-357 | A created entry is found if and only if no end-of-directory slot lay ahead of the first room for it |
| Visibilities.MovedIsFound | core/norse-exfat/src/write.rs:362-401 | A moved entry is found under the same condition, also a directory moved into itself without growth |
| Visibilities.MadeKeepsUnique | core/norse-exfat/src/write.rs:341-357 | Creation keeps folded names unique in a directory without hidden entries, and keeps it without hidden entries under the same condition |
| Visibilities.MovedKeepsUnique | core/norse-exfat/src/write.rs:362-401 | A move keeps folded names unique in the destination |
| Stabilities.NamedStable | core/norse-exfat/src/write.rs:417-557 | When no name or place of an entry changed, every path names the node it named before |
| Lookups.SearchFindsNodes | core/norse-exfat/src/write.rs:92-148 | The writer's search on the slots of a consistent directory returns the record of the node it meets first |
| Listings.FindIsFirstListed | core/norse-exfat/src/lib.rs:199-210 | The writer's search gives the first node the reader lists whose folded name matches |
| Listings.DirectoryLists | core/norse-exfat/src/dir.rs:137-214 | The reader lists a consistent directory without error and reports exactly the nodes before its end, in order |
| Listings.ListedVisible | core/norse-exfat/src/dir.rs:137-214 | Everything listed is a node of the directory with no end-of-directory slot ahead of it |
| Listings.VisibleListed | core/norse-exfat/src/dir.rs:137-214 | Every node with no end-of-directory slot ahead of it is listed |
| SlotLists.LocateAgreesWithReader | core/norse-exfat/src/write.rs:92-148 | On any slot list that the reader accepts, the writer's search returns the first listed entry whose folded name matches, with the same first cluster, length and kind |
| SlotLists.TornSetNeverListed | core/norse-exfat/src/write.rs:332-336 | However far the slot writes of a new set got, short of all, and whatever usable slots were there, the reader reports an error rather than a made-up entry, with no assumption on checksums |
| SlotLists.NewSetListed | core/norse-exfat/src/write.rs:282-337 | A completed set is listed where it was placed, between what came before and after |
| Readers.LookupIsNamed | core/norse-exfat/src/lib.rs:191-213 | The component-by-component lookup equals resolving the parent and searching it for the leaf |
| Readers.BytesAreContent | core/norse-exfat/src/lib.rs:218-270 | The reader's byte-by-byte view of a file with ValidDataLength equal to DataLength is its content |
| Outcomes.BystanderPublished | core/norse-exfat/src/write.rs:4-8 | A node outside the operation that keeps its set, links and bits stays published at every device write |
| Outcomes.SafeRun | core/norse-exfat/src/write.rs:4-8 | A run of writes whose footprint stays off the other nodes, and during which the named ones stay published, is crash safe |
| Creations.MakeFileEntry | core/norse-exfat/src/write.rs:341-358 | An entry for an empty file: the set is written to room that was free, its clusters (if the directory grows) come from the free set, and every prefix of the writes is crash safe |
| Creations.MakeDirEntry | core/norse-exfat/src/write.rs:345-356 | A directory entry: the cluster is allocated and zeroed first, so the entry is published from the write that completes it |
| Renames.MoveLocated | core/norse-exfat/src/write.rs:362-401 | The new set is placed before the old one is cleared; the old set is unused afterwards; prefixes are crash safe; consistent afterwards if and only if the move does not grow the directory it moves |
| Renames.StaleIsBroken | core/norse-exfat/src/write.rs:362-401 | A directory moved into itself and grown for that records a length its chain does not have, which no consistent volume does |
| Removals.RemoveLocated | core/norse-exfat/src/write.rs:575-592 | The set is cleared before the clusters are freed; the invariant afterwards holds if and only if the node was childless; prefixes are crash safe |
| FileWrites.WriteEntry | core/norse-exfat/src/write.rs:417-465 | Chain growth, zero fill, data, then entry: the state after each stage and at every device write between them |
| FileTruncates.TruncateEntry | core/norse-exfat/src/write.rs:530-557 | Shrinking: the tail is freed and the chain re-ended, or the run freed, before the entry is rewritten; success, freed clusters and resulting state in each case |
| Placements.FindOrMakeSlotRun | core/norse-exfat/src/write.rs:213-248 | Returns room for the set: the first run of usable slots, or a blank cluster appended to the directory, whose recorded length follows; fails exactly when there is no run and no free cluster |
| Placements.PlaceEntrySet | core/norse-exfat/src/write.rs:282-337 | Writes the encoded set slot by slot into that room; refuses names of no or more than 255 units |
| SlotWrites.RewriteStream | core/norse-exfat/src/write.rs:252-278 | Rewrites two slots, the checksum over old primary and new stream; exactly those two slots change, one write each |
| SlotWrites.ClearSet | core/norse-exfat/src/write.rs:578-586 | Clears the in-use bit of each slot of a set, one write each, in order |
| SlotWrites.UsableBit | core/norse-exfat/src/write.rs:213-231 | A slot may be taken for a new set exactly when bit 7 of its type byte is clear |
| SlotWrites.ClearedBits | core/norse-exfat/src/write.rs:578-583 | Clearing a slot takes bit 7 off its type byte and leaves every other bit and byte |
| SlotWrites.ZeroCluster | core/norse-exfat/src/write.rs:203-208 | Zeroes one cluster in one write and nothing else |
| EntrySets.EntrySetRoundTrip | core/norse-exfat/src/dir.rs:151-212 | For every recordable name, cluster, length and kind, decoding the encoded set passes the checksum and returns them |
| EntrySets.RewriteReencodes | core/norse-exfat/src/write.rs:252-278 | Rewriting the set of one state gives exactly the set of the next state, so round trips survive any number of rewrites |
| EntrySets.TornRewriteReadsOld | core/norse-exfat/src/write.rs:275-276 | Between the two writes of a rewrite the set reads as the old entry or as an error |
| EntrySets.TornSetRejected | core/norse-exfat/src/write.rs:332-334 | A set of which only some slots were written is rejected whatever the checksums |
| EntrySets.ChecksumIgnoresItsField | core/norse-exfat/src/write.rs:39-50 | The set checksum does not depend on bytes 2 and 3 of the first slot |
| EntrySets.SetChecksum | core/norse-exfat/src/dir.rs:91-102 | The checksum loop, used by writer and reader alike, gives the rolling sum of every byte of the set but those two: from zero on each step rotates the 16 bits right by one, bit by bit, and adds the byte modulo 2^16 |
| EntrySets.ChecksumRolls | core/norse-exfat/src/dir.rs:91-102 | The same sum for every set a reader checks or a rewrite recomputes |
| SetLayouts.EncodesBytes | core/norse-exfat/src/write.rs:291-331 | Byte by byte what is written for an entry: types, counts, attributes, timestamps, hash of the folded name, lengths, first cluster, units low byte first, zeros elsewhere, and a sum that holds |
| SetLayouts.DecodesBytes | core/norse-exfat/src/dir.rs:151-212 | A set from anywhere is accepted exactly when its sum holds, a Stream slot follows and the File Name slots its length calls for are there; each field is the number at its place, the valid length and the timestamp's hundredths and offset included |
| EntrySets.HashName | core/norse-exfat/src/write.rs:24-35 | The name hash loop gives the rolling 16-bit sum of both bytes, low first, of every unit's entry in the table, or of the unit itself past the table's end |
| EntrySets.BuildSet | core/norse-exfat/src/write.rs:291-331 | The slots assembled for a set are its encoding, checksum included |
| Alloc.FindFree | core/norse-exfat/src/alloc.rs:70-84 | Returns the free cluster that comes first when one counts up from the hint and goes on at the lowest after the highest; fails exactly when none is free |
| Alloc.AllocChain | core/norse-exfat/src/alloc.rs:90-111 | Succeeds exactly when enough clusters are free; takes that many distinct free clusters, sets exactly their bits and links exactly them into an ended chain; on failure the bits it had set stay set |
| Alloc.ExtendChain | core/norse-exfat/src/alloc.rs:115-127 | The same, and the tail now links to the new clusters |
| Alloc.FreeChain | core/norse-exfat/src/alloc.rs:132-172 | Frees exactly the clusters the walk from the first (or the contiguous run) lists and changes no other bit or link |
| Alloc.AllocThenFree | core/norse-exfat/src/alloc.rs:90-172 | Freeing a freshly allocated chain restores every bit and every link outside it |
| Fats.ReadChain | core/norse-exfat/src/fat.rs:23-47 | The loop computes the walk, with and without a known length |
| Fats.ReadChainFollowsPath | core/norse-exfat/src/fat.rs:23-47 | Without a length the walk terminates on every FAT, cyclic ones included, and succeeds exactly when the path from the first cluster reaches the end mark through clusters of the volume; the result is that path and repeats nothing |
| Fats.ReadKnownLength | core/norse-exfat/src/fat.rs:23-47 | With a length the walk returns linked clusters, at most that many, and stops short only at the end of the chain |
| Volumes.Volume.FatEntry | core/norse-exfat/src/fat.rs:10-18 | Reads the FAT word the view shows; out of range is an error |
| Volumes.Volume.SetFat | core/norse-exfat/src/alloc.rs:55-67 | Writes one FAT word: exactly that word of the view changes, in one device write |
| Volumes.Volume.IsAllocated | core/norse-exfat/src/alloc.rs:22-32 | Reads the bit the view shows |
| Volumes.Volume.SetBit | core/norse-exfat/src/alloc.rs:34-52 | Changes exactly one bit of the bitmap, in one device write |
| DiskLayouts.LinkOnDisk | core/norse-exfat/src/fat.rs:10-18 | The link of a cluster in the view is the little-endian word at its place in the FAT region of the device |
| DiskLayouts.BitOnDisk | core/norse-exfat/src/alloc.rs:13-32 | The allocation bit of cluster c in the view is bit c - 2 of the bitmap's bytes on the device, lowest bit first |
| DiskLayouts.ByteOnDisk | core/norse-exfat/src/boot.rs:23-33 | Byte j of cluster c in the view is byte j of the (c - 2)-th cluster behind the start of the heap |
| DiskLayouts.SlotIs | core/norse-exfat/src/write.rs:59-80 | Slot i of a cluster in the view is the cluster's i-th 32 bytes |
| FileData.WriteRange | core/norse-exfat/src/write.rs:467-483 | Cluster by cluster, lays the buffer over the chain's bytes at the offset and touches nothing else; succeeds exactly when it fits |
| FileData.ZeroRange | core/norse-exfat/src/write.rs:485-502 | The same with zeros |
| FileData.ReadFile | core/norse-exfat/src/lib.rs:218-270 | Below ValidDataLength byte p comes from place p mod the cluster size of a cluster, above it is zero: for a NoFatChain file that cluster is the first plus p divided by the cluster size, and the read succeeds exactly when those clusters are in range; otherwise it is the one the FAT leads to in as many steps, and a FAT path as long as the size calls for is always read |
| Directories.Locate | core/norse-exfat/src/write.rs:92-148 | The slot-by-slot search computes the search on the directory's slot list |
| Directories.WalkRawEntries | core/norse-exfat/src/dir.rs:23-87 | The walk delivers the slots before the first end mark, within the length bound, across clusters |
| Directories.ReadDirectory | core/norse-exfat/src/dir.rs:137-214 | The set-by-set reading loop computes the listing of the slot list, errors included |
| Layouts.PlanFits | core/norse-exfat/src/format.rs:69-118 | For every device size the layout arithmetic accepts: a FAT word and a bitmap bit for every cluster, the heap after the FAT and inside the device, room for the metadata |
| Layouts.PlanExactly | core/norse-exfat/src/format.rs:69-102 | The layout said without its arithmetic: cluster size by device size, the FAT on the first cluster boundary after the boot regions and of the fewest clusters that serve what the space could hold, as many clusters as fit, bitmap and table in the fewest clusters that hold them |
| Layouts.PlanAccepts | core/norse-exfat/src/format.rs:69-102 | A device is accepted exactly when it has at least 32768 bytes |
| Formats.Format | core/norse-exfat/src/format.rs:69-179 | Succeeds exactly on devices of at least 32768 bytes; after formatting both boot regions, the FAT, the bitmap, the up-case table and the root cluster hold what the layout says; a refused size changes nothing |
| Formats.BuildBootRegion | core/norse-exfat/src/format.rs:184-235 | The twelve boot sectors; every word of the last is the rolling 32-bit sum, each step a rotation right by one bit and an addition modulo 2^32, of the eleven before it without bytes 106, 107 and 112 |
| FreshLayouts.RegionBytes | core/norse-exfat/src/format.rs:196-234 | A boot region byte by byte around its boot sector: eight sectors of zeros with their signature, two of zeros, one of sums |
| FreshLayouts.BootBytes | core/norse-exfat/src/format.rs:162-175 | After formatting both copies are the same such region, with the share of the heap in use in whole percent |
| FreshLayouts.FatBytes | core/norse-exfat/src/format.rs:106-123 | Every word of a fresh FAT: media and end marks, one chain each for bitmap, table and root, zero for the rest |
| FreshLayouts.BitmapBytes | core/norse-exfat/src/format.rs:126-131 | Every bit of a fresh bitmap: set for exactly those clusters |
| FreshLayouts.TableBytes | core/norse-exfat/src/format.rs:134-136 | The table's bytes lie in the clusters after the bitmap's, padded with zeros |
| FreshLayouts.RootBytesHold | core/norse-exfat/src/format.rs:137-159 | The fresh root directory byte by byte: label, bitmap entry, table entry with the rolling sum of the table, zeros |
| Boots.ReadBootRegion | core/norse-exfat/src/boot.rs:36-78 | Reading the boot region gives the geometry or the first complaint, in the order of the checks |
| Boots.VerifyVbrChecksum | core/norse-exfat/src/boot.rs:82-100 | Accepts exactly when every word of the checksum sector is that rolling sum, bit by bit, of the eleven sectors before it |
| Boots.AcceptsBoot | core/norse-exfat/src/boot.rs:36-100 | A device is accepted exactly when its first sector has signature, zeros, shifts, FAT offset and root cluster in range and the sums hold, and its geometry is the numbers at these places |
| Boots.BootSectorBytes | core/norse-exfat/src/format.rs:199-219 | The boot sector the formatter writes, in numbers |
| Formats.RollingTable | core/norse-exfat/src/format.rs:55-64 | The table's sum is the rolling 32-bit sum of all its bytes |
| Boots.FormatReadsBack | core/norse-exfat/src/format.rs:184-235 | A formatted device reads back as the geometry of its layout with a matching checksum |
| FreshVolumes.FreshIsConsistent | core/norse-exfat/src/format.rs:69-179 | A formatted device satisfies the invariant: bitmap, table and root own exactly the set bits, and nothing is recorded |
| Openings.ReadRawChain | core/norse-exfat/src/fat.rs:23-47 | Chain reading before the geometry is trusted, device errors included |
| Openings.FindSystemEntry | core/norse-exfat/src/lib.rs:134-166 | The first system entry of the kind before the end of the root, its cluster and length |
| SystemEntries.FirstStopDecides | core/norse-exfat/src/lib.rs:134-166 | Of the root's slots, in the order of its linked clusters, the first that is zero or records what is wanted decides: the search gives the cluster and length in its bytes 20 and 24, or nothing if it is zero; of the bitmaps only one with even flags counts |
| SystemEntries.NoStopFindsNothing | core/norse-exfat/src/lib.rs:134-166 | A root without such a slot records nothing |
| SystemEntries.OpensBitmap | core/norse-exfat/src/lib.rs:118-151 | An opened device uses the bitmap that this slot of type 0x81 records |
| SystemEntries.OpensTable | core/norse-exfat/src/lib.rs:118-166 | It loads the up-case table of the slot of type 0x82, and compares names as they are without one |
| Openings.LoadUpcase | core/norse-exfat/src/upcase.rs:37-95 | Size limit, chain, copy and decompression of the table, errors in that order |
| TableLoadings.LoadsMap | core/norse-exfat/src/upcase.rs:37-95 | A map whose compressed words lie, low byte first, along clusters linked in the FAT is the map that is loaded from them |
| TableLoadings.OpensMap | core/norse-exfat/src/lib.rs:118-132 | A device whose root records such a table opens with that map |
| TableLoadings.FormattedMapOpens | core/norse-exfat/src/lib.rs:118-166 | A device formatted with the compressed table of a map opens with that map |
| UpcaseTables.WordsOfUnits | core/norse-exfat/src/upcase.rs:63-66 | Reading words undoes writing them low byte first |
| UpcaseTables.CompressLoads | core/norse-exfat/src/upcase.rs:63-95 | Decompression undoes a writer of runs and literals, wherever it chooses to use runs |
| UpcaseTables.StorableExactly | core/norse-exfat/src/upcase.rs:63-95 | A map of at most 0x10000 entries is the content of some table exactly when no entry but the last is 0xFFFF |
| Openings.Open | core/norse-exfat/src/lib.rs:118-132 | Opening computes geometry, table and bitmap place, errors in the order of the source |
| Openings.FormatThenOpen | core/norse-exfat/src/lib.rs:118-166 | Opening a formatted device returns its layout's geometry, the bitmap's run, and the expansion of the table that was written; what that expansion is for the table of a given map is FormattedMapOpens |
| UpcaseTables.Decompress | core/norse-exfat/src/upcase.rs:63-95 | The decompression loop computes the expansion: runs of identities, the final 0xFFFF kept as itself, overflow refused |
| UpcaseTables.OverflowsExactly | core/norse-exfat/src/upcase.rs:63-95 | An accepted word list gives at most 0x10001 entries, and that many if and only if its last word is 0xFFFF in opening position and the words before it give exactly 0x10000 |
| UpcaseTables.OverflowingTable | core/norse-exfat/src/upcase.rs:63-95 | Five words that are accepted and give 0x10001 entries |
| Timestamps.ClosedFormCounts | core/norse-exfat/src/dir.rs:118-124 | The closed-form date arithmetic equals counting out years and months from 1970, for every year from then on |
| Timestamps.ConvertsExactly | core/norse-exfat/src/dir.rs:106-134 | A timestamp whose month and day are in range converts to counted days, time of day and hundredths, less the seven-bit two's-complement quarter-hour offset, and no other one converts |
| Timestamps.StrictlyMonotone | core/norse-exfat/src/dir.rs:106-134 | Packed valid timestamps compare as numbers in the order of their instants |
| Xts.CascadeInverse | core/vc-crypto/src/xts.rs:92-158 | For any layers that are each a bijection of units, the cascade is one, decryption undoing the layers last to first |
| Xts.EncryptUnits | core/vc-crypto/src/xts.rs:149-158 | The in-place layer-by-layer passes equal encrypting each unit through the whole cascade under its own number |
| Xts.DecryptUnits | core/vc-crypto/src/xts.rs:137-146 | The same for decryption |
| Xts.AreaSplice | core/vc-crypto/src/xts.rs:137-158 | A pass over a buffer works on each run of whole units by itself, under absolute unit numbers |
| Xts.KeyingIsSound | core/vc-crypto/src/xts.rs:92-113 | Keying succeeds exactly on key material of 64 bytes a layer and gives bijective layers |
| Xts.KeyingMeans | core/vc-crypto/src/xts.rs:92-113 | Material made of all 32-byte primary keys in layer order and then all secondary keys in the same order keys layer i to work as cipher i under primary i and secondary i, both ways, for every scheme |
| Xts.CascadeMeans | core/vc-crypto/src/xts.rs:113-158 | A cascade so keyed encrypts a unit through its ciphers first to last and decrypts it last to first, each under its own two keys |
| Xts.AreaUnit | core/vc-crypto/src/xts.rs:137-158 | A pass gives the k-th unit of a buffer the number of the first one plus k |
| DecryptedDevices.WriteRefinesFlatArray | core/vc-format/src/decrypted.rs:71-108 | The view is a flat array: a write that fits splices it at any offset and length, any other leaves it alone |
| DecryptedDevices.RewriteSplices | core/vc-format/src/decrypted.rs:71-108 | The plaintext is spliced and no container byte outside the touched units changes |
| DecryptedDevices.AlignedNeedsNoRead | core/vc-format/src/decrypted.rs:91-104 | On unit boundaries skipping the read gives the bytes that reading, patching and encrypting would |
| DecryptedDevices.DecryptedDevice.ReadAt | core/vc-format/src/decrypted.rs:43-69 | Returns exactly the plaintext slice; fails exactly when the span leaves the data area or its units the device |
| DecryptedDevices.DecryptedDevice.WriteAt | core/vc-format/src/decrypted.rs:71-108 | The container afterwards is the rewritten one, with or without the pre-read; a failure changes nothing |
| DecryptedDevices.ViewByte | core/vc-format/src/decrypted.rs:43-69 | Byte i of the view is the byte at its place of the decrypted 512-byte unit of the container it lies in, the unit's number its place in the container |
| ProtectedDevices.RunKeepsHidden | core/vc-format/src/protect.rs:60-71 | Whatever the cipher of whole units and whatever runs of outer writes, every byte of a unit-aligned hidden area stays: the sufficient half for layers outside this crate |
| ProtectedDevices.RunKeepsHiddenBlocks | core/vc-format/src/protect.rs:60-71 | Under any cipher of independent 16-byte blocks, as XTS is, and any run of outer writes every byte of a hidden area of whole blocks stays |
| Xts.CascadeBlockLocal | core/vc-crypto/src/xts.rs:21-37 | A cascade of layers that work on independent 16-byte blocks works on independent blocks, in both directions |
| DecryptedDevices.RewriteKeepsBlocks | core/vc-format/src/decrypted.rs:71-108 | Under such a cipher a write changes no 16-byte block it has no byte in |
| ProtectedDevices.CreatedHiddenSafeExactly | core/vc-format/src/create.rs:195-205 | A hidden volume laid out by this crate survives every cipher of independent 16-byte blocks and every run if and only if the container size is a multiple of 16 |
| ProtectedDevices.MisalignedLeaks | core/vc-format/src/protect.rs:60-71 | A hidden area that starts inside a 16-byte block is changed by an allowed outer write under some cipher of independent blocks |
| ProtectedDevices.RefusesExactly | core/vc-format/src/protect.rs:44-47 | Refused exactly when latched or covering a protected byte; a refusal and the latch go together |
| ProtectedDevices.LatchedFreezes | core/vc-format/src/protect.rs:60-69 | The latch never opens and no byte changes after it |
| ProtectedDevices.ProtectedDevice.WriteAt | core/vc-format/src/protect.rs:60-71 | The method steps the guard's state machine |
| ProtectedDevices.ProtectedDevice.ReadAt | core/vc-format/src/protect.rs:55-58 | Reads are those of the view, latched or not |
| Containers.TranslatesExactly | core/vault-core/src/session.rs:227-239 | The session accepts a hidden area exactly when it lies in the outer one, and translates its start |
| Containers.CreatedLayoutTranslates | core/vault-core/src/session.rs:227-239 | Both checks of the session pass for every layout the crate creates, and the translated region is the hidden area |
| Headers.BuildThenParse | core/vc-format/src/parse.rs:45-111 | A header built for any data area and keys parses back to them, whatever the checksum function |
| Headers.BuildHeader | core/vc-format/src/create.rs:43-80 | The field-by-field filling yields the header bytes, checksums last |
| HeaderLayouts.ParsesExactly | core/vc-format/src/parse.rs:45-111 | The verdict on every 448 bytes: no magic, a checksum that does not hold, an unsupported version, a system volume and an unknown sector size are each refused as what they are, in this order; an accepted header's numbers are the big-endian ones at their places |
| HeaderLayouts.BuildsExactly | core/vc-format/src/create.rs:43-80 | A built header in numbers, its two checksums holding |
| SlotLayouts.IterationsAre | core/vc-types/src/registry.rs:67-73 | Without a PIM the function's own count, 16000 for the first unit and 1000 more for each further one |
| SlotLayouts.PositionsAre | core/vc-format/src/lib.rs:35-46 | Where the four slots lie in a container of any length |
| SlotLayouts.CopyHolds | core/vc-format/src/create.rs:85-113 | A header copy is 64 bytes of salt and the header encrypted through the ciphers of the scheme in turn, as unit 0, under the stretched key split into primary and secondary keys |
| SlotLayouts.HeldDecrypts | core/vc-format/src/lib.rs:246-275 | A slot of that form decrypts to its header |
| SlotLayouts.FormatJudged | core/vc-format/src/lib.rs:246-275 | What the search makes of any slot of that form: nothing without the mark, a diagnosis for what is wrong behind it, otherwise the header |
| SlotLayouts.FormatOpens | core/vc-format/src/lib.rs:95-226 | A container in which some slot has that form and holds a sound header opens under its secret, whoever wrote it: the slot opens to the header's numbers and a search over its position succeeds |
| HeaderSearch.TriplesInOrder | core/vc-format/src/lib.rs:95-226 | The candidates are counted function by function, then slot by slot, then scheme by scheme |
| HeaderSearch.FindHeaderAt | core/vc-format/src/lib.rs:95-226 | The phased search returns what the plain PRF-major, slot-minor, scheme-innermost search returns; progress is a prefix of the full list of steps, and all of it when nothing decides |
| HeaderSearch.PlainMeans | core/vc-format/src/lib.rs:95-226 | The first validating or breaking candidate decides; otherwise the last diagnosis, otherwise what was diagnosed before, otherwise wrong password |
| HeaderSearch.AnnouncedInOrder | core/vc-format/src/lib.rs:134-221 | The full list counts each step from 0 to slots times PRFs, once and in order |
| HeaderSearch.TrySchemes | core/vc-format/src/lib.rs:246-275 | Decrypting with prefixes of one long key equals judging every scheme with a key of its own length |
| Rekeying.ChangePassword | core/vc-format/src/repair.rs:95-169 | Fails without touching a byte when the old secret finds nothing; otherwise succeeds exactly when both slots lie in the container, and then the backup slot, and the primary unless the two overlap, stands under its own fresh salt and decrypts under the new secret to the identical plaintext; no byte outside the slots changes, and after the first write the container already holds the header under the new secret; for containers of every size |
| Rekeying.RekeyedReopens | core/vc-format/src/repair.rs:95-169 | After a password change a search with the new secret returns the header of the slot it was written to, with that PRF and scheme, unless an earlier candidate decides |
| Rekeying.MidwayReopens | core/vc-format/src/repair.rs:95-169 | Between the two writes the new secret opens the container, and so does the old one when the matched slot is the backup and the two slots do not overlap |
| Rekeying.SearchedOpens | core/vc-format/src/lib.rs:95-226 | A header the search returns is really in the container at its position |
| Rekeying.OpensFound | core/vc-format/src/lib.rs:95-226 | A full-sized container with a slot that opens is found by a search over that slot's position |
| NewVolumes.CreateVolume | core/vc-format/src/create.rs:118-176 | Refused exactly for other sector sizes than 512 and 4096 and below 262656 bytes; both copies of the new header, each under its own fresh salt, decrypt to the data area between the first and last 128 KiB and the keys; the two hidden slots hold random bytes; no byte outside the four slots changes |
| NewVolumes.FillSlots | core/vc-format/src/create.rs:145-157 | The four slots hold their fillings and no other byte changes |
| NewVolumes.CreateHidden | core/vc-format/src/create.rs:187-233 | Refused exactly for sizes that are no positive multiple of the sector size or leave less than 128 KiB of the outer area; otherwise the hidden header goes in its two slots, each copy under its own fresh salt, records an area that ends 256 KiB before the end of the container, and no other byte changes |
| NewVolumes.NewVolumeOpens | core/vc-format/src/create.rs:118-233 | A new volume opens with the secret it was made with, as the geometry and keys put in |
| Keyfiles.PoolIsSum | core/vc-crypto/src/keyfile.rs:33-67 | The pool is, byte by byte, the sum modulo 256 of per-file contributions that do not depend on the starting pool |
| Keyfiles.OrderDoesNotMatter | core/vc-crypto/src/keyfile.rs:50-67 | The effective secret is the same for every permutation of the keyfiles |
| Keyfiles.OnlyFirstMebibyte | core/vc-crypto/src/keyfile.rs:33-44 | Only the first mebibyte of each keyfile matters |
| Keyfiles.MixIntoPool | core/vc-crypto/src/keyfile.rs:33-44 | The in-place mixing loop pours the file's register bytes into the pool |
| Keyfiles.ApplyKeyfiles | core/vc-crypto/src/keyfile.rs:50-67 | The method returns the effective secret; without keyfiles the passphrase |
| Keyfiles.TableEntry | core/vc-crypto/src/keyfile.rs:13-22 | The eight-step loop computes the table entry |
| KeyfileRegisters.RegisterDivides | core/vc-crypto/src/keyfile.rs:13-30 | The register after some bytes, its bits reversed, is the remainder that long division by the polynomial 0x04C11DB7 leaves, bit by bit, from a register of ones on |
| KeyfileRegisters.ReversedMoves | core/vc-crypto/src/keyfile.rs:13-22 | What the reversal of bits is: the lowest becomes the highest, moving down becomes moving up, twice is nothing |
| KeyfileRegisters.SharesAre | core/vc-crypto/src/keyfile.rs:37-38 | The four bytes a register value adds are its big-endian bytes |
| KeyfileRegisters.EmittedAt | core/vc-crypto/src/keyfile.rs:33-44 | Each byte of a file adds the four bytes of the register after it |
| KeyfileRegisters.SecretBytes | core/vc-crypto/src/keyfile.rs:50-67 | Every byte of the secret: the passphrase's own or zero past its end, and in the first 64 places, modulo 256, the bytes of all files' registers that fall on that place counted round 64 |

## Left out

- ExfatFileSystem.ExfatFs.WriteFile: requires the end of the write to stay below 2^64 and its cluster count below 2^32; the source casts the count to 32 bits unchecked and then indexes an empty chain.
- ExfatFileSystem.ExfatFs.constructor: requires clusters of at least 1024 bytes; the source accepts 512, where the longest entry set, nineteen slots, does not fit a cluster and would spill past it.
- ExfatFileSystem.ExfatFs.TruncateFile: the growing part requires what WriteFile requires; while a file shrinks only the other files are covered at every device write, because the source frees clusters before the entry shrinks.
- ExfatFileSystem.ExfatFs.CreateFile: names the parent directory as part of the operation in its crash statement, because the source links a grown directory's new cluster before zeroing it; the same holds for MakeDir and Rename.
- Runs.Execute: an operation of a run is called only when its condition holds; what the operations do otherwise is stated with each of them, not for what follows.
- Rekeying.ChangePassword: the source's offset arithmetic is taken to wrap modulo 2^64, as it does without overflow checks; when the two slots overlap only the one written last is promised.
- The images between two device writes of one operation: the other nodes and the published entries are covered, not the whole invariant, because a half-written entry set is a File slot that belongs to no node.
- Formats.Format: requires a cluster count within the specification's bound of 0xFFFFFFF5; the source has no check.
- UpcaseTables.Decompress: the table is an arbitrary byte sequence of length 5836; its contents are not part of this model.
- Flush barriers: write order is modelled, reordering of writes between two flushes is not.
- I/O errors halfway through an operation; the device fails only on accesses past its end.
- FileData.ReadFile: the cluster numbers of a NoFatChain file are taken to be added modulo 2^32, as they are without overflow checks; byte positions are not bounded.
- Directories and files marked NoFatChain, and valid lengths below the data length, on the write side; the directory reader follows FAT chains only, the file reader does both.
- A volume without an allocation bitmap entry: opening reports it, the operations assume it is there.
- Directory slot addresses are a cluster and an index instead of a byte offset.
- Paths are sequences of UTF-16 names; splitting strings, UTF-8 and lossy decoding are left out.
- A reader entry whose secondary count is zero: the source of `locate` indexes past the set.
- 64-bit overflow of header-supplied geometry in the decrypted view and in the session's sum, and 32-bit overflow of the iteration count for huge PIMs.
- Ciphers, hashes, HMAC, PBKDF2 and CRC-32 of headers: arbitrary functions with the laws named above.
- Randomness of salts, keys and slot fillings: parameters.
- Scoped threads in the header search: a sweep is the sequence of its derivation results.
- Header backup and restore files, zeroization, timing and deniability, progress names beyond their order.
- The adapters, bindings, command line and file devices around the two cores.
