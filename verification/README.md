# Verified model of the OS-test image and runner tools

This project models, in Dafny, the parts of the repository whose correctness is hardest to see
from the code, and proves what they are for.

- **FAT32 images** (`FatNames` ... `FatRoundTrip`, `FatPaths`, `FatDestinations`, `FatBytes`).
  `create_fat32_image` turns manifest entries into a tree, 8.3 aliases, long-name entries, a cluster
  allocation, two FATs, FSInfo and a byte image; the black-box reader of `tests/image_layout_test.py`
  takes it apart again. The main result is the whole-image round trip, in both directions: every
  destination string of the manifest reads as exactly its source bytes (`FatDestinations`), and every
  path whatsoever reads as it resolves in the manifest's tree (`FatPaths`). What an alias has to do
  with its name (`FatAliases`) and what the image's bytes are (`FatBytes`) is said in plain terms.
- **Serial assertions** (`Search`, `Serial`, `SerialRuns`, `SerialScanners`). The bounded-buffer
  machine is proved to refine matching over whole streams; a run of chunks, resets, exits and
  deadlines passes if and only if a simple whole-stream specification holds.
- **Composed disks** (`Placement`, `FatPatch`, `FatEmbed`, `Disk`, `GptTable`, `GptImage`,
  `MbrImage`, `FatOnDisk`, `DiskBytes`, `GptBytes`, `MbrBytes`, `RawImage`). Greedy placement is sound,
  least and complete; every table and partition reads back; a FAT image embedded and patched reads as
  before, path by path. `GptBytes` and `MbrBytes` say of the finished disks which manifests get one and
  what every byte of them is.
- **Ethernet hub** (`Framing`, `Hub`, `HubCapture`). Framing under arbitrary fragmentation, and the
  hub's threads as interleaved steps.
- **Screendumps and verdicts** (`Ppm`, `PpmFormat`, `Runner`, `RunnerPasses`, `RunnerFailures`,
  `RunnerLoop`). The PPM validator, which accepts exactly the images that a written-out grammar
  describes, and the runner's event loop with everything it observes as input: what a pass implies,
  when a run passes, and what fails it.

`Bytes`, `Text`, `Regions` and `Ranges` are the shared vocabulary: packed integers, UTF-16 and
path splitting, sequences of writes into one image, consecutive ranges.

## Conventions

- `None` stands for any exception a tool raises; which one, and its text, is not modelled.
- Where the source loops or writes in place, there is a method (on arrays, or a class with the
  source's fields) whose postcondition equates its result with a specification function; the
  theorems are about that function.
- `casefold` and `upper` are function parameters (`Unicode`), CRC-32 is a function parameter, and
  GUIDs are given: the theorems hold for any choice. A Dafny `string` is a sequence of Unicode scalar
  values, so it is a `str` that encodes as UTF-16.
- Bit operations are written arithmetically.
- Image sizes for FAT are at most 4096 MiB, as the rule that runs the tool enforces.

## Where code and documentation differ

- The rule admits FAT images from 34 MiB on; the tool itself accepts 33 MiB (`FatCreate.Layout`).
- `_lfn_entries` appends a terminator even to names of exactly 13k units; the model does as well, and
  the reader copes (`FatDirectory.LongNameReadsBack`).
- The raw-image overlap check rejects some disjoint manifests with empty blobs
  (`RawImage.EmptyBlobRejected`); `RawImage.RawAccepts` gives the exact condition.
- The hub promises to capture what it forwards. `_new_port` checks for a closed hub without holding
  the lock, so a join can overtake `close`, and a frame sent to it can then escape the capture.
  `HubCapture.EscapesIff` says of every schedule whether one does, `HubCapture.DeliveredWasCaptured`
  that none does unless a join overtakes `close`, and `HubCapture.EscapeIsReachable` from which states
  one still can.
- The runner takes a QMP reply for the answer to its screendump request when the ids are equal. Before
  the request its own id is `None`, so a reply without id counts as well, and the run can pass without
  a screendump ever being requested (`Runner.EarlyReplyPasses`). `Runner.ScreendumpIsEarned` gives the
  exact condition.
- After a queued QMP event has recorded a failure, the main loop goes on to the check that records a
  pass. That the pass cannot happen rests on the assertion machine: a machine that has failed has
  not passed (`Runner.PendingInv`).

## Assumptions

- Each `sendall` of the hub is one atomic step. The code holds no lock per destination.
- Shutting down and closing both sockets of a port in `close` is one atomic step, after which its
  participant sends nothing and its thread reads nothing. A socket that `_remove` closes under a
  thread that is already reading may still yield the frame being read, and no further one.
- A source file does not change while a tool reads it.

## Model

| member | source | states |
|---|---|---|
| `FatNames.SearchSuffix` | ostest/private/fat_image.py:141-149 | the suffix loop finds the first number whose `~N` candidate is free and not reserved, and fails only if there is none below 1,000,000 |
| `FatNames.AliasForIsLegal` | ostest/private/fat_image.py:123-149 | whatever alias one name is given, it is legal and not among the used ones |
| `FatAliases.AliasForIs` | ostest/private/fat_image.py:120-152 | the alias of a name: in upper case if it fits 8.3 with legal characters, names no device and is free, and else as much of the cleaned base as fits before `~n`, with the cleaned extension cut to three and n the first free number; no alias only if all numbers are taken |
| `FatAliases.DirectDisplays` | ostest/private/fat_image.py:114-152 | a name that fits 8.3 is displayed as its upper-case base and extension, so one in upper case is displayed as it is and needs no long name |
| `FatNames.AssignShortNames` | ostest/private/fat_image.py:120-152 | the loop with its `used` set computes the alias list of a directory |
| `FatAliases.AliasesAre` | ostest/private/fat_image.py:120-152 | in a directory each name gets the alias that it and the aliases before it determine |
| `FatBytes.ChildAliasIs` | ostest/private/fat_image.py:120-156 | so does every node of a tree, among its siblings in order |
| `FatNames.AliasesAreLegalAndDistinct` | ostest/private/fat_image.py:120-152 | all aliases of a directory are pairwise distinct, 11 bytes long, non-blank, of legal characters and not a reserved device name |
| `FatNames.CandidateReadsBack` | ostest/private/fat_image.py:142-144 | the suffix number can be read back from a candidate, so candidates are injective in it |
| `FatNames.SearchIsShort` | ostest/private/fat_image.py:141-149 | the search succeeds within one try more than there are used aliases |
| `FatNames.AliasesExist` | ostest/private/fat_image.py:120-152 | for a directory of at most 999,999 children the alias search never fails |
| `FatTree.Insert` | ostest/private/fat_image.py:67-93 | walking and creating directories in place inserts one entry, or rejects it on a file in the way or an occupied name |
| `FatTree.BuildCharacterized` | ostest/private/fat_image.py:60-94 | a list of keyed paths builds if and only if no path is a prefix of another (equality included), and then the tree holds exactly the files and the directories above them, each spelled as at its first use |
| `FatTree.NodeShape` | ostest/private/fat_image.py:60-94 | in a built tree every node hangs below a directory and bears its name in an entry whose path leads through it |
| `FatTree.BuildIsOrderFree` | ostest/private/fat_image.py:60-94 | permuting the entries neither changes acceptance nor, when directory spellings agree, the tree |
| `FatEntries.BuildTree` | ostest/private/fat_image.py:60-94 | the loop over manifest entries, with path splitting and component validation, computes the tree or fails |
| `FatDestinations.PartsSpelt` | ostest/private/fat_image.py:63-64 | a destination stands for the components of the path it spells: slashes and backslashes around it fall away, backslashes in it are slashes, and its components joined by slashes are the path |
| `FatDestinations.DestinationsAccepted` | ostest/private/fat_image.py:48-83 | a manifest is accepted if and only if every source can be read, every component of every destination has 1 to 255 units, no control character and none of "<", ">", ":", the double quote, slashes, the bar, "?" or "*", and ends in neither blank nor dot, and no destination case-folded is another or a directory of another |
| `FatDestinations.SlashesDoNotMatter` | ostest/private/fat_image.py:63-64 | manifests whose destinations spell the same paths build the same tree and the same image |
| `FatEntries.BuildAccepts` | ostest/private/fat_image.py:48-94 | a manifest is accepted if and only if all entries are valid and readable and no case-folded component path is a prefix of another |
| `FatEntries.BuildShape` | ostest/private/fat_image.py:48-94 | every stored name is a valid component and its case-folding is its key |
| `FatEntries.EntryStored` | ostest/private/fat_image.py:60-94 | every entry is stored as a file with its source bytes under its folded path; its stored names fold to the entry's own, and equal them when spellings agree |
| `FatEntries.BuildOrderFree` | ostest/private/fat_image.py:60-94 | for valid entries with agreeing spellings the tree is the same for every permutation |
| `FatLayout.CalculateLayout` | ostest/private/fat_image.py:287-309 | the binary search returns the least FAT size that addresses its data region, and fails exactly when too few clusters remain |
| `FatLayout.LeastFatIsLeast` | ostest/private/fat_image.py:287-304 | that size c is the least c >= 1 with 128c >= (T - 32 - 2c) + 2, namely ceil((T - 30) / 130) |
| `FatLayout.LayoutFacts` | ostest/private/fat_image.py:302-309 | every data cluster has a FAT entry; the size is accepted if and only if the image has at least 66,581 sectors |
| `FatPlan.WalkCovers` | ostest/private/fat_image.py:175-182 | the preorder walk visits every node at or below its start exactly once, and nothing else |
| `FatPlan.WalkInOrder` | ostest/private/fat_image.py:175-182 | every node comes before those below it; where paths part, directories come before files, each by their folded names |
| `FatAlloc.AssignAllShortNames` | ostest/private/fat_image.py:120-156 | aliasing directory after directory in walk order gives the children of each their alias list, and fails if one directory does |
| `FatAlloc.CountEntries` | ostest/private/fat_image.py:159-172 | the counting loop computes the number of directory entries |
| `FatAlloc.MeasureNodes` | ostest/private/fat_image.py:186-191 | the first pass computes the cluster count of every node |
| `FatAlloc.NumberClusters` | ostest/private/fat_image.py:193-203 | the second pass gives every node with clusters the running `next_cluster` and returns the next free one |
| `FatBytes.SizesAreTight` | ostest/private/fat_image.py:159-191 | no node has a cluster to spare: its clusters hold its bytes or records, and one fewer would not |
| `Ranges.RangesPartition` | ostest/private/fat_image.py:193-203 | the assigned ranges are pairwise disjoint and cover [2, next_free) exactly |
| `FatDirectory.LfnChecksum` | ostest/private/fat_image.py:224-229 | the loop computes the checksum that the specification function defines |
| `FatDirectory.MakeLfnEntries` | ostest/private/fat_image.py:236-256 | the descending loop emits the long-name entries of a name |
| `FatDirectory.LfnRunShape` | ostest/private/fat_image.py:236-256 | a long-name run has ordinals n + 0x40 down to 1, the checksum of its alias in every entry, and the name's units in order |
| `FatBytes.ChecksumIs` | ostest/private/fat_image.py:224-229 | the checksum is reached from 0 byte by byte, each time rotated right by one bit and increased by the byte, modulo 256 |
| `FatBytes.ChildRecordsAre` | ostest/private/fat_image.py:236-284 | the records of a child: as many long-name entries as its name needs, each with the checksum of its alias, then the short entry |
| `FatBytes.NodeRecordIs` | ostest/private/fat_image.py:205-221 | the short entry of a stored node has its alias, attribute, first cluster and size; there are long-name entries if and only if the alias displays differently |
| `FatBytes.ShortIs` | ostest/private/fat_image.py:205-221 | the 32 bytes of a short entry, dates included |
| `FatBytes.HeaderRecordsAre` | ostest/private/fat_image.py:259-268 | a directory starts with the volume label, or with `.` and `..` and their clusters |
| `FatDirectory.LongNameReadsBack` | tests/image_layout_test.py:64-91 | the reader reassembles the parts of a run into exactly the name, also for names of 13k units |
| `FatDirectory.ChildRoundTrip` | tests/image_layout_test.py:64-94 | reading the entries of one child adds exactly its name, attribute, first cluster and size |
| `FatDirectoryData.DirectoryData` | ostest/private/fat_image.py:259-284 | emitting, joining and padding a directory succeeds whenever the records fit |
| `FatDirectoryData.ScanDirectory` | tests/image_layout_test.py:64-94 | the reader's loop over 32-byte entries computes the scan |
| `FatDirectoryData.DirectoryReadsBack` | tests/image_layout_test.py:64-94 | scanning an emitted directory yields exactly its children (and dot entries), for any padding in whole entries |
| `FatDirectoryData.AddAllFinds` | tests/image_layout_test.py:64-94 | a name is found if and only if a child (or dot entry) carries it, and then with that child's data |
| `FatImage.ChildrenRecordCount` | ostest/private/fat_image.py:166-172 | the precomputed entry count equals the number of records emitted |
| `FatImage.ListingReady` | ostest/private/fat_image.py:259-284 | so a directory's records always fit its clusters, and the assertion at line 283 is unreachable |
| `FatImage.SiblingAliasesDiffer` | ostest/private/fat_image.py:120-152 | in the annotated tree siblings never share an alias |
| `FatImage.AliasesAvailable` | ostest/private/fat_image.py:120-156 | aliasing a whole tree succeeds if every directory has at most 999,999 children |
| `FatImage.AssignClusters` | ostest/private/fat_image.py:185-203 | both passes together produce the cluster fields, or fail exactly when the clusters do not suffice |
| `FatImage.MadePlanOk` | ostest/private/fat_image.py:377-380 | the three passes leave a tree whose kids, aliases, order, sizes and first clusters agree with each other |
| `FatReader.ReadChain` | tests/image_layout_test.py:52-62 | the loop with `seen` follows a chain, and fails on a cycle or a link outside the image |
| `FatReader.ReadStored` | tests/image_layout_test.py:96-106 | the loop over path components computes the lookup |
| `FatReader.ContiguousChain` | tests/image_layout_test.py:48-62 | following a contiguous chain visits exactly its range, stops at the end mark and returns its bytes |
| `FatBlocks.FillFat` | ostest/private/fat_image.py:382-389 | packing links in place yields the FAT the specification defines |
| `FatBlocks.EntryLinked` | ostest/private/fat_image.py:385-389 | within a node's range every entry links to the next cluster and the last one ends the chain |
| `FatBlocks.EntryFree` | ostest/private/fat_image.py:382-389 | entries behind all ranges are zero |
| `FatBlocks.EntryReserved` | ostest/private/fat_image.py:382-384 | entries 0 and 1 hold the media marker and the end marker |
| `FatBlocks.FreeCount` | ostest/private/fat_image.py:391-393 | the number of zero entries for addressable clusters is the computed free count, and the hint is the first of them |
| `FatVolume.NodeChainReads` | tests/image_layout_test.py:52-62 | in the written image the chain of every node reads as its block followed by padding: no loops, no cross-links |
| `FatVolume.VolumeReadable` | ostest/private/fat_image.py:396-420 | boot sectors, FATs and node data do not overlap, so each is in the finished image as written |
| `FatVolume.BootFields` | ostest/private/fat_image.py:312-340 | the boot sector carries the fields that the reader and the patcher look at |
| `FatBytes.ImageFrontIs` | ostest/private/fat_image.py:371-407 | the image has the requested length; every byte of both boot sectors and both FSInfo sectors, and every word of both equal FATs, is as the format demands, for the least FAT that addresses its clusters |
| `FatCreate.CreateFat32Image` | ostest/private/fat_image.py:358-420 | the whole tool, loops and in-place writes included, computes the specified image or fails |
| `FatCreate.CreateAccepts` | ostest/private/fat_image.py:358-380 | there is an image if and only if label, identifier and size are in range, all entries are valid and readable, no folded path is a prefix of another, no directory runs out of aliases and the nodes fit the clusters |
| `FatCreate.Layout` | ostest/private/fat_image.py:371-375 | a size is accepted by the layout if and only if it is at least 33 MiB |
| `FatRoundTrip.ImageRoundTrip` | ostest/private/fat_image.py:358-420 | whole-image round trip: for every accepted manifest, label, identifier and size, mounting the image and reading any stored path returns exactly the source bytes |
| `FatRoundTrip.EntryRoundTrip` | ostest/private/fat_image.py:358-420 | the same in manifest terms: every entry's bytes read back under names that fold to its path, and under its own destination when the entries' spellings of directories agree |
| `FatDestinations.DestinationReads` | ostest/private/fat_image.py:358-420 | where directories that fold alike are spelt alike, every entry reads back under the path its destination spells |
| `FatDestinations.ProperDestinationReads` | ostest/private/fat_image.py:358-420 | in particular under the destination string itself, if it has no backslash and no slash at either end |
| `FatPaths.EveryPathReads` | tests/image_layout_test.py:96-106 | every path of every created image, with dot components or without, reads exactly as it resolves in the manifest's tree; what does not resolve does not read |
| `FatPaths.PlainPathResolves` | tests/image_layout_test.py:96-106 | a path without dot components resolves if and only if a file is stored under its folded components with exactly its names, and then to that file |
| `FatRoundTrip.ClusterOwner` | ostest/private/fat_image.py:193-203 | every cluster of [2, next_free) belongs to a node |
| `FatRoundTrip.OwnerIsUnique` | ostest/private/fat_image.py:193-203 | no cluster belongs to two nodes, and owned clusters lie behind the owner's first cluster |
| `FatRoundTrip.FsInfoIsExact` | ostest/private/fat_image.py:391-395 | FSInfo holds the number of zero FAT entries, and the first of them or 0xFFFFFFFF |
| `FatRoundTrip.ImagePrologue` | ostest/private/fat_image.py:401-407 | both boot sectors, both FSInfo sectors and both FATs are in place and equal |
| `FatRoundTrip.CreateOrderFree` | ostest/private/fat_image.py:358-420 | permuting the manifest does not change the image (spellings agreeing) |
| `Search.GreedyIsComplete` | ostest/private/qemu_runner_support.py:212-235 | leftmost matching finds all markers if and only if some ordered, non-overlapping occurrences exist |
| `Search.MatchedInWindow` | ostest/private/qemu_runner_support.py:212-222 | matching on the retained suffix plus new data equals matching on the whole stream |
| `Serial.SerialAssertionMachine.Create` | ostest/private/qemu_runner_support.py:106-138 | construction fails exactly for an ill-formed plan |
| `Serial.ConfigIs` | ostest/private/qemu_runner_support.py:106-128 | well-formed plans: at least one phase, no phase without markers, no empty marker, a reboot after every phase but the last |
| `Serial.SerialAssertionMachine.ScanMarkers` | ostest/private/qemu_runner_support.py:209-234 | the marker loop computes its specification |
| `Serial.SerialAssertionMachine.FeedChunk` | ostest/private/qemu_runner_support.py:175-235 | `feed` on the fields computes the step function |
| `SerialRuns.ResetTracks` | ostest/private/qemu_runner_support.py:237-264 | a reset keeps a machine running if and only if it is guest-initiated and the machine waits for it; the run before and after it then splits into segments at this point |
| `SerialRuns.TerminalStays` | ostest/private/qemu_runner_support.py:175-297 | once there is an outcome, no chunk, reset, exit or deadline changes anything |
| `SerialRuns.FeedRefines` | ostest/private/qemu_runner_support.py:189-235 | one `feed` on bounded buffers does what matching on the whole stream and segment says |
| `SerialRuns.RunIsSound` | ostest/private/qemu_runner_support.py:175-297 | a running machine is a summary of its whole run; a passing one has an accepted prefix |
| `SerialRuns.AcceptedPasses` | ostest/private/qemu_runner_support.py:175-297 | a run that meets the whole-stream specification passes |
| `SerialRuns.PassesIff` | ostest/private/qemu_runner_support.py:175-297 | a run passes if and only if some prefix has one segment per phase (n - 1 resets, all guest-initiated), embeds each phase's markers in its segment, contains no forbidden marker anywhere, and no exit or deadline came first |
| `SerialRuns.ChunkingIsInvisible` | ostest/private/qemu_runner_support.py:175-235 | on forbidden-free data, feeding a then b and feeding a + b give the same outcome, phase, marker index and waiting flag |
| `SerialRuns.RetainedIsBounded` | ostest/private/qemu_runner_support.py:164-168 | retained bytes never exceed (longest forbidden - 1) + (longest marker - 1) |
| `SerialScanners.LegacyForbidden.Feed` | ostest/private/qemu_test_runner.py:73-79 | one scan of the legacy verdict: a hit on tail plus chunk, else the new tail |
| `SerialScanners.ScanIsExact` | ostest/private/qemu_test_runner.py:73-79 | however the stream is cut, there is a hit if and only if the concatenation contains a forbidden marker; the tail is exactly the last bytes |
| `SerialScanners.SinglePhasePasses` | ostest/private/qemu_runner_support.py:189-297 | any run of a single-phase machine passes if and only if, before the first reset, exit or deadline, its last marker greedily ends at e and no forbidden marker is complete by the first chunk boundary at or after e |
| `Placement.AlignUp` | ostest/private/gpt_image.py:45-46 | the result is the least aligned value at or above the argument |
| `Placement.LayoutPartitions` | ostest/private/gpt_image.py:184-249 | the cursor loop computes the placement or fails |
| `Placement.PlaceIsSound` | ostest/private/gpt_image.py:184-249 | accepted partitions are in order, aligned, disjoint, inside the usable range, and honour fixed starts |
| `Placement.PlaceIsLeast` | ostest/private/gpt_image.py:184-249 | no other placement starts any partition earlier |
| `Placement.PlaceIsComplete` | ostest/private/gpt_image.py:184-249 | the loop succeeds if and only if some valid in-order placement exists |
| `FatPatch.PatchFatHiddenSectors` | ostest/private/gpt_image.py:150-169 | patching in place succeeds exactly on a signed 512-byte boot sector whose backup lies inside, and then writes only the two fields |
| `FatPatch.PatchedElsewhere` | ostest/private/mbr_image.py:46-65 | bytes outside the hidden-sector fields stay as they were |
| `FatPatch.PatchedFields` | ostest/private/mbr_image.py:46-65 | both fields hold the start LBA |
| `FatPatch.WritePartition` | ostest/private/gpt_image.py:297-313 | copying and patching one partition leaves the rest of the disk alone |
| `FatEmbed.EmbeddedFatReads` | ostest/private/gpt_image.py:150-169 | a created FAT image, patched, has equal boot sectors that name its start and the same reader result for every path |
| `Disk.WritePartitions` | ostest/private/gpt_image.py:297-313 | the writing loop is the sequence of partition writes, and fails exactly when some patch fails |
| `Disk.Sandwich` | ostest/private/gpt_image.py:292-320 | tables before, partitions between and tables behind never overlap |
| `GptTable.PartitionEntries` | ostest/private/gpt_image.py:100-120 | filling the entry array in place fails exactly on a name over 36 UTF-16 units |
| `GptTable.EntryReadsBack` | tests/image_layout_test.py:218-240 | an entry reads back with GUIDs, LBAs, attributes and name (less trailing NULs) |
| `GptTable.ArrayReadsBack` | ostest/private/gpt_image.py:100-120 | slot i holds the i-th record; unused slots are zero |
| `GptTable.GptHeader` | ostest/private/gpt_image.py:49-81 | packing with a zero checksum and patching it in yields the header |
| `GptTable.HeaderReadsBack` | tests/image_layout_test.py:171-183 | a header passes signature, size, checksum and own-LBA checks and reads back field by field, whatever function computes the checksum |
| `GptTable.TableReadsBack` | tests/image_layout_test.py:171-189 | so does the entry array it points to |
| `GptImage.ProtectiveEntry` | ostest/private/gpt_image.py:84-97 | the protective MBR is signed and its one entry covers the disk as far as 32 bits reach |
| `GptImage.PiecesRead` | ostest/private/gpt_image.py:292-320 | after all writes both headers, both entry arrays, the protective MBR and every partition are in place |
| `GptImage.GptTablesValidate` | ostest/private/gpt_image.py:252-320 | primary and backup table both pass the reader's checks, mirror each other and list the same entries |
| `GptImage.GptEntriesRead` | ostest/private/gpt_image.py:100-120 | the i-th entry names the i-th partition where it was placed; the rest are blank |
| `GptImage.GptPartitionReads` | ostest/private/gpt_image.py:297-313 | every partition reads back as its image, patched fields excepted |
| `GptImage.GptElsewhereZero` | ostest/private/gpt_image.py:292-320 | between the tables, bytes outside every partition are zero |
| `GptBytes.GptAccepts` | ostest/private/gpt_image.py:169-320 | a disk is produced if and only if the size is positive and one to 128 partitions of whole sectors, with names of at most 36 units, 64-bit attributes and patchable boot sectors where asked, fit between the tables at aligned and requested starts, in order and disjoint |
| `GptBytes.GptDiskIs` | ostest/private/gpt_image.py:252-320 | the whole disk: exactly `size_mb` MiB long; starts the earliest of any fitting placement; the protective table, both headers with checksums and the backup in the last sector, and every entry, byte by byte; every partition its image but for patched fields; zeros between |
| `GptImage.CreateGptImage` | ostest/private/gpt_image.py:252-320 | the tool computes the specified disk or fails |
| `MbrImage.ChsDecodes` | ostest/private/mbr_image.py:35-43 | decoding gives min(lba, 1024*255*63 - 1) for every LBA |
| `MbrImage.ChsOrdered` | ostest/private/mbr_image.py:35-43 | the encoding is monotone, and exact below the limit |
| `MbrImage.MakeMbr` | ostest/private/mbr_image.py:118-131 | the table is filled in place |
| `MbrImage.MbrReads` | ostest/private/mbr_image.py:118-131 | every entry reads back with flag, type, start, length and both CHS addresses; unused entries are zero; the sector is signed |
| `MbrImage.MbrDiskReads` | ostest/private/mbr_image.py:115-139 | the finished disk holds the table and, behind it, every partition |
| `MbrBytes.MbrAccepts` | ostest/private/mbr_image.py:68-112 | a disk is produced if and only if the size is positive and below 2 TiB and one to four partitions of whole sectors, with types 1 to 255, fit behind the table at aligned and requested starts, in order and disjoint |
| `MbrBytes.MbrDiskIs` | ostest/private/mbr_image.py:114-139 | the whole disk: exactly `size_mb` MiB long; starts the earliest of any fitting placement; every entry with flag, type, LBAs and both cylinder-head-sector addresses; every partition its image but for patched fields; zeros elsewhere |
| `MbrImage.CreateMbrImage` | ostest/private/mbr_image.py:68-139 | the tool computes the specified disk or fails |
| `FatOnDisk.FatOnGpt` | ostest/private/gpt_image.py:297-313 | a created FAT image in a patched GPT partition still reads, for every path, as the image itself |
| `FatOnDisk.FatOnMbr` | ostest/private/mbr_image.py:132-139 | likewise on an MBR disk |
| `RawImage.CheckNeighbours` | ostest/private/raw_image.py:45-48 | the loop decides whether neighbours in sorted order overlap |
| `RawImage.NeighboursDecide` | ostest/private/raw_image.py:44-48 | the neighbour check clears every pair, not only neighbours |
| `RawImage.RawAccepts` | ostest/private/raw_image.py:31-48 | accepted if and only if entries are valid and in bounds, pairwise disjoint, and no empty blob is sorted behind a non-empty one at the same offset |
| `RawImage.NonEmptyAccepts` | ostest/private/raw_image.py:31-48 | without empty blobs: if and only if in bounds and pairwise disjoint |
| `RawImage.EmptyBlobRejected` | ostest/private/raw_image.py:44-48 | a manifest with an empty blob that is disjoint and in bounds, yet rejected |
| `RawImage.RawReads` | ostest/private/raw_image.py:50-57 | the image is `size_mb` MiB long and every byte is that of the blob whose entry covers it, or zero |
| `RawImage.RawOrderFree` | ostest/private/raw_image.py:31-57 | the order of the entries does not matter |
| `RawImage.CreateRawImage` | ostest/private/raw_image.py:31-57 | the tool computes the specified image or fails |
| `Framing.Connection.ReceiveExact` | ostest/python/network.py:29-36 | under any fragmentation, exactly the next bytes, or end of file if there are too few |
| `Framing.Connection.Receive` | ostest/python/network.py:65-73 | one frame off the stream, or why there is none |
| `Framing.Connection.ReceiveAll` | ostest/python/network.py:128-134 | the reading loop yields the decoding of the stream |
| `Framing.FramesRoundTrip` | ostest/python/network.py:60-73 | a stream of encoded frames decodes to the same frames |
| `Framing.DecodedWasSent` | ostest/python/network.py:65-73 | whatever is decoded from any stream, encoded again, is a prefix of it |
| `Framing.WireFormat` | ostest/python/network.py:14-73 | a frame on the wire is its length, four bytes with the high one first, and then one to 1,048,576 bytes |
| `Framing.BadLengths` | ostest/python/network.py:65-73 | any other length is refused once its four bytes are there |
| `Framing.TruncatedStream` | ostest/python/network.py:29-36 | a stream cut anywhere yields exactly its complete frames |
| `Hub.InvStep` | ostest/python/network.py:110-186 | every step of every thread, join and close keeps the flow invariant |
| `Hub.HubIsOrdered` | ostest/python/network.py:110-166 | over all interleavings, what a port has received from another is a contiguous in-order run of its frames, never its own, and complete while it stays connected |
| `Hub.ParticipantDecodes` | ostest/python/network.py:128-147 | a participant decodes exactly the frames sent to it, and a prefix if cut off |
| `HubCapture.FlagsRun` | ostest/python/network.py:168-186 | closed, recording and overtaken are conditions on the schedule: a join overtakes `close` if and only if its registration comes after the start of `close` |
| `HubCapture.LogRun` | ostest/python/network.py:149-158 | the capture file holds exactly the frames whose capture came before the file was closed |
| `HubCapture.InboxRun` | ostest/python/network.py:128-147 | a port has received exactly the frames delivered to it, each the one its sender's thread captured last |
| `HubCapture.FrameCapturedIff` | ostest/python/network.py:149-158 | a delivered frame was captured by exactly one step, before its delivery, and is in the capture file if and only if the file was still open then |
| `HubCapture.EscapesIff` | ostest/python/network.py:110-186 | some delivered frame is missing from the file if and only if the schedule closes the file, then captures a frame, then delivers it |
| `HubCapture.DeliveredWasCaptured` | ostest/python/network.py:110-166 | a schedule in which no join overtakes `close` keeps every delivered frame |
| `HubCapture.EscapeIsReachable` | ostest/python/network.py:110-186 | a run can be continued so that a delivered frame is in no capture file if and only if one has escaped, the hub is open, such a frame is on its way to an open socket, or a join that overtook `close` is or can become a destination while another port is joining, open, still reading, or holds a frame the file does not |
| `Ppm.SkipSpace` | ostest/private/qemu_runner_support.py:338-347 | the loops skip whitespace and comments as specified |
| `Ppm.ReadToken` | ostest/private/qemu_runner_support.py:350-361 | one token and the position behind it |
| `PpmFormat.HeaderReads` | ostest/private/qemu_runner_support.py:338-405 | a header of magic, width, height and maximum, with any blanks and comments before and between them, reads back, and is refused if and only if it has too many pixels |
| `Ppm.CountPlain` | ostest/private/qemu_runner_support.py:440-452 | the sample loop accepts exactly the well-formed text rasters, and its capped set has min(threshold, number of colours) members |
| `Ppm.CountBinary` | ostest/private/qemu_runner_support.py:412-438 | the same for binary rasters of either sample width |
| `Ppm.ValidatePpm` | ostest/private/qemu_runner_support.py:370-468 | the validator accepts exactly well-formed images with at least the wanted number of colours |
| `PpmFormat.P3IsJudged` | ostest/private/qemu_runner_support.py:440-468 | a text image of a raster, whatever blanks and comments separate its numbers, is judged by its size and colours alone |
| `PpmFormat.P6IsJudged` | ostest/private/qemu_runner_support.py:412-468 | so is a binary image, with one- and two-byte samples, behind any one blank or CR LF |
| `PpmFormat.OnlyImages` | ostest/private/qemu_runner_support.py:370-468 | whatever is accepted is such an image, so the two together say exactly what is |
| `PpmFormat.RenderedP3` | ostest/private/qemu_runner_support.py:440-452 | every raster has a text image |
| `PpmFormat.RenderedP6` | ostest/private/qemu_runner_support.py:412-438 | and a binary one |
| `PpmFormat.RenderingsAgree` | ostest/private/qemu_runner_support.py:370-468 | a text and a binary image of one raster get the same verdict and metadata; rejection if and only if over the pixel limit or below the threshold |
| `Runner.DrainInv` | ostest/private/qemu_test_runner.py:434-467 | draining keeps the invariant and hands on every byte it reads unless there is a verdict |
| `Runner.PendingInv` | ostest/private/qemu_test_runner.py:536-546 | a queued event can only fail a run whose guest is not done, so the later pass cannot overwrite it |
| `Runner.StepInv` | ostest/private/qemu_test_runner.py:469-595 | one iteration keeps the invariant |
| `Runner.PassIsEarned` | ostest/private/qemu_test_runner.py:469-595 | a passing run recorded no failure, its guest completed (by the assertions, the pattern or an accepted exit status), a declared companion succeeded; the machine saw exactly the bytes handed on, and in pattern mode those bytes hold no forbidden marker |
| `Runner.ScreendumpIsEarned` | ostest/private/qemu_test_runner.py:507-532 | if a screendump is wanted, a passing run has an answer with a good image to a request made after the guest was done, if and only if no reply without id was handled before a request |
| `Runner.IdsMakeItGenuine` | ostest/private/qemu_test_runner.py:507-532 | so where every reply carries an id, the screendump of a passing run is always genuine |
| `Runner.EarlyReplyPasses` | ostest/private/qemu_test_runner.py:513-532 | under every plan that wants a screendump and accepts some exit status, a first reply without id makes the run pass although none was requested |
| `Runner.EarlyReplyExample` | ostest/private/qemu_test_runner.py:513-532 | an instance of it, with the default threshold and a picture of two pixels |
| `Runner.FailureIsFinal` | ostest/private/qemu_test_runner.py:469-595 | a recorded failure is the final verdict |
| `RunnerPasses.CalmRunPasses` | ostest/private/qemu_test_runner.py:469-595 | with a marker plan, a run in which only the guest can fail (no deadline, log limit, failure pattern, failing companion, exit, or reply without id or with a bad image) passes if and only if its markers complete as the machine's specification says, a wanted screendump is answered after that, and a wanted companion succeeds; it fails if and only if the machine does |
| `RunnerFailures.ChunkVerdict` | ostest/private/qemu_test_runner.py:434-467 | a chunk fails the run if and only if it takes the log over 256 MiB, matches a failure pattern, brings a forbidden marker into the stream or fails the machine; else it completes the guest if and only if the markers or the success pattern do |
| `RunnerFailures.EventVerdict` | ostest/private/qemu_test_runner.py:505-512 | an event fails the run if and only if it fails the machine |
| `RunnerFailures.ReplyVerdict` | ostest/private/qemu_test_runner.py:513-532 | the reply that answers the request completes the screendump or fails the run; others change nothing |
| `RunnerFailures.GoodImage` | ostest/private/qemu_test_runner.py:521-532 | a screendump is good if and only if it is a PPM image of at most 64 MiB and 16 Mi pixels with enough colours |
| `RunnerFailures.RoundEnds` | ostest/private/qemu_test_runner.py:547-595 | how an iteration without a verdict ends, by companion, exit status and lost connection |
| `RunnerFailures.ExpiredFails` | ostest/private/qemu_test_runner.py:469-475 | the deadline fails every run that is still going |
| `Runner.SerialBeforeQmp` | ostest/private/qemu_test_runner.py:480-494 | bytes in the pipe when QMP is reported are handed on before any message, unless a verdict exists and no message is handled |
| `RunnerLoop.Loop.Drain` | ostest/private/qemu_test_runner.py:434-467 | `drain_serial` on the loop's variables |
| `RunnerLoop.Loop.TakeKeys` | ostest/private/qemu_test_runner.py:480-532 | the loop over ready keys and QMP lines |
| `RunnerLoop.Loop.RunLoop` | ostest/private/qemu_test_runner.py:469-595 | the main loop computes the run that the theorems speak of |

## Left out

- Compression, manifests, argument parsing, file opening, JSON: images and files are byte sequences.
- The node tree of `fat_image.py` is a map from folded paths to nodes and its filled-in fields are maps keyed by path, instead of linked heap objects; the recursive `_assign_short_names` runs over the preorder, which assigns the same aliases.
- `_short_entry`, `_boot_sector`, `_fsinfo_sector`, the GPT and MBR records are concatenations of their fields instead of stores into a zeroed buffer; in-place update of those few bytes is not captured.
- `list.sort` in `raw_image.py` is a sorting function; sorting itself is not an in-place loop there.
- `parse_offset` and other regular expressions: an offset is given, or marked as not parsing.
- GUID derivation, Unicode tables, CRC-32 as an algorithm.
- No claim is made that long names and aliases together form one conflict-free namespace; each is kept distinct on its own.
- PpmFormat.HeaderReads: does not model Python's limit on the number of digits that `int` converts.
- Serial bytes and RESET events are not claimed to keep their true order in the guest; `Runner.SerialBeforeQmp` speaks of the bytes in the pipe when the selector returns.
- Runner.PassIsEarned: does not say what the success pattern matched, because regular expressions and text decoding are not modelled; whether a pattern matches after a chunk is an input.
- RunnerPasses.CalmRunPasses: does not speak of success-pattern plans, nor of runs in which something besides the guest goes wrong; `RunnerFailures` says of each such observation what it does.
- An exception inside the event loop, which always yields a failing result, and the start-up phase before it.
- The ISO image, which is constant bytes at fixed sectors; managed networks, QEMU command lines and sessions, companions as processes, KVM probing, JUnit output and failure hooks, which consist of operating-system calls and field validation; the Starlark rules, which are configuration. None of them keeps state whose invariant could fail or has an inverse to agree with.
- Reason strings and log artifacts.
