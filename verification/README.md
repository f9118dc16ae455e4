# Verification of the LTFSCopyGUI core

A Dafny model of the stateful core of LTFSCopyGUI, with proofs.  It covers:

- **The schema store** (`XmlEvents`, `RecordUid`, `DirectoryTree`, `IndexStore`, `ChainSurgery`, `MergeProof`,
  `Relocation`, `Building`, `Merging`, `Selections`, `SchemaStore`, `MergeConservation`): LTFS index trees kept as linked
  chains in flat indexes.  Parsing builds them, merging relocates and splices them, and normalisation removes
  duplicate directories in place.  The specification is a recursive merge of trees, which is itself characterised
  path by path.
- **File records** (`EventStream`, `FileRecord`, `FileParser`, `TextForms`, `RecordBarcode`, `BarcodeReading`): the full and the fast
  parsers, and the two copiers that give a record a new UID or a barcode, as loops over XML events.
- **The small-file pool** (`PoolState`, `SmallFiles`, `PoolWaiting`): a budgeted scheduler; each method is one section run under
  the state lock, and `Valid` is the invariant of every reachable state.
- **The asynchronous reader** (`Alignment`, `AsyncReader`): overlapped reads that complete in any order.
- **The two slot rings and what feeds them** (`RingIndex`, `NativeRing`, `NativeWorker`, `BridgeRing`, `BridgeRuns`,
  `BridgeWatch`, `TapeStream`): the ring under a mutex is a class; the cross-process ring is a state machine whose
  steps are the single atomic updates, and its theorems are about every interleaving.
- **External sorts and search** (`RunFormat`, `StableMerge`, `TapeSort`, `DirectorySort`, `Search`, `StoreSearch`).
- **In-place C routines** (`TextReplacement`, `StringReplacement`, `Getopt`).

What a method computes is tied by its `ensures` to a specification function, and the lemmas say what that function
means.  Events outside the program (completions, failures, the other side's turns) are arguments that range over
everything possible.

Six properties one would expect do not hold in general; each has a concrete run or input and its exact condition:

- A record with two `fileuid` elements keeps its old UID when it is rewritten: the copier edits the first, the parser
  believes the last (`RecordUid.UidTakesEffectIff`, `RecordUid.TwoUidsExample`).
- `lfr_bridge_wait_until_buffered` may report DONE while slots are occupied: it reads the slot count before the
  completion flag (`BridgeWatch.DoneMeansDrainedIff`, `BridgeWatch.StaleDoneFromStart`).
- The name parser reports the first of several names, the full parser the last
  (`FileRecord.FastParsersAgree`, `FileRecord.TwoNamesExample`).
- A summary takes the first extent from the last of several extent lists, the full parser from the first
  (`FileRecord.FastParsersAgree`, `FileRecord.TwoListsExample`).
- The barcode is added once for every attribute container of a record, not once for the record
  (`BarcodeReading.BarcodeIsOneMoreAttribute`, `BarcodeReading.TwoContainersExample`).
- The size check of `StringReplace` is made in wrapping arithmetic and may pass for a result that does not fit
  (`StringReplacement.FitsIff`, `StringReplacement.WrappedFitExample`).

Also, `read_file_overlapped_with_depth` opens an empty file only once: the loop that retries is not entered for it, so
the clause of `AsyncReader.ReadFileOverlapped` about used-up retries speaks of non-empty files.

## Model

| member | source | states |
|---|---|---|
| DirectoryTree.NormalizeUnique | LTFSCopyGUIOxide/crates/schema/src/lib.rs:2225-2355 | after the recursive merge no directory at any depth has two children of one name, and no name is lost or invented |
| DirectoryTree.NormalizeKeepsFiles | LTFSCopyGUIOxide/crates/schema/src/lib.rs:2183-2355 | every path leads to the same files in the same order before and after the merge, same-named files included |
| DirectoryTree.NormalizeKeepsNames | LTFSCopyGUIOxide/crates/schema/src/lib.rs:2225-2355 | below every path the subdirectory names are the old ones, each at its first occurrence |
| DirectoryTree.PathsDetermine | LTFSCopyGUIOxide/crates/schema/src/lib.rs:2225-2355 | a duplicate-free tree is determined by the files and names at each path, so the merge is the only result with those properties |
| DirectoryTree.NormalizeFixpoint | LTFSCopyGUIOxide/crates/schema/src/lib.rs:2225-2355 | merging a tree without duplicates changes nothing |
| DirectoryTree.NormalizeIdempotent | LTFSCopyGUIOxide/crates/schema/src/lib.rs:2225-2355 | merging twice is merging once |
| DirectoryTree.NormalizeConserves | LTFSCopyGUIOxide/crates/schema/src/lib.rs:2225-2355 | the multiset of (directory path, file) pairs is conserved |
| DirectoryTree.ScanNormalizes | LTFSCopyGUIOxide/crates/schema/src/lib.rs:2225-2355 | the two passes of the in-place algorithm, fold duplicates into the first of their name and then merge each survivor, compute that recursive merge |
| DirectoryTree.MapNormalize | LTFSCopyGUIOxide/crates/schema/src/lib.rs:2225-2355 | merging looks at names only: it commutes with any change made file by file |
| ChainSurgery.ReadFilesIff | LTFSCopyGUIOxide/crates/schema/src/lib.rs:2051-2077 | the chain reader accepts a first offset and a count exactly when a chain of that many entries starts there and ends in -1 |
| ChainSurgery.ReadDirsFollows | LTFSCopyGUIOxide/crates/schema/src/lib.rs:2020-2049 | reading the chain of a laid-out directory list succeeds and returns that chain |
| ChainSurgery.JoinFilesHolds | LTFSCopyGUIOxide/crates/schema/src/lib.rs:1083-1110 | joined file chains hold the concatenation; only entries of the first chain are written |
| ChainSurgery.JoinDirsHolds | LTFSCopyGUIOxide/crates/schema/src/lib.rs:1112-1141 | joined directory chains lay out the concatenated forest; only cells of the first chain are written |
| ChainSurgery.MergeRecordsHolds | LTFSCopyGUIOxide/crates/schema/src/lib.rs:2183-2223 | moving a duplicate's children into the primary succeeds, and the primary then holds both lists in order |
| ChainSurgery.AbsorbValue | LTFSCopyGUIOxide/crates/schema/src/lib.rs:2183-2284 | the layout after absorbing a duplicate denotes one fold step of the tree merge |
| MergeProof.ScanNew | LTFSCopyGUIOxide/crates/schema/src/lib.rs:2225-2284 | a name seen for the first time joins the survivors without a write |
| MergeProof.ScanDuplicate | LTFSCopyGUIOxide/crates/schema/src/lib.rs:2225-2284 | a duplicate's contents move to its primary, its cell is unlinked, and the whole layout stays a well-formed chain that denotes the same merge |
| MergeProof.ScanEnd | LTFSCopyGUIOxide/crates/schema/src/lib.rs:2225-2284 | the scan ends on -1 after exactly the counted cells, so its length check cannot fire |
| MergeProof.HeaderWritten | LTFSCopyGUIOxide/crates/schema/src/lib.rs:2317-2340 | the header back-patched last describes the normalised children with true totals |
| Relocation.ShiftedDirs | LTFSCopyGUIOxide/crates/schema/src/lib.rs:658-668 | chains and headers survive relocation: the layout with every offset rebased is laid out in the target store |
| Relocation.RelocatedValue | LTFSCopyGUIOxide/crates/schema/src/lib.rs:1173-1443 | a relocated source denotes the tree it denoted before, file by file rewritten with a new UID |
| IndexStore.PackedTouches | LTFSCopyGUIOxide/crates/schema/src/lib.rs:2183-2355 | relinking moves no record: file records stay one after another, so no two cells share an offset |
| Relocation.SameNormalize | LTFSCopyGUIOxide/crates/schema/src/lib.rs:2225-2355 | merging commutes with renumbering the files |
| Relocation.WellFormedChecked | LTFSCopyGUIOxide/crates/schema/src/lib.rs:1173-1443 | what a parser builds passes every range check of the relocation |
| Building.BuiltFile | LTFSCopyGUIOxide/crates/schema/src/lib.rs:1014-1047 | appending a file extends the directory being built by exactly that file |
| Building.BuiltDir | LTFSCopyGUIOxide/crates/schema/src/lib.rs:1049-1081 | appending a parsed directory extends the tree being built by exactly that directory |
| Building.HeaderCompleted | LTFSCopyGUIOxide/crates/schema/src/lib.rs:1445-1494 | completing the reserved header turns what was read into a complete directory record |
| Merging.SourceAccepted | LTFSCopyGUIOxide/crates/schema/src/lib.rs:1173-1443 | a source can be appended exactly when the UID rewriter accepts each of its input's records |
| SchemaStore.StoreOutput.ReadFileChain | LTFSCopyGUIOxide/crates/schema/src/lib.rs:2051-2077 | the loop over entries returns what the chain specification says, errors included |
| SchemaStore.StoreOutput.ReadDirectoryChain | LTFSCopyGUIOxide/crates/schema/src/lib.rs:2020-2049 | the same for directory chains |
| SchemaStore.StoreOutput.JoinFileChains | LTFSCopyGUIOxide/crates/schema/src/lib.rs:1083-1110 | the new index and chain, and exactly when the join is refused |
| SchemaStore.StoreOutput.JoinDirectoryChains | LTFSCopyGUIOxide/crates/schema/src/lib.rs:1112-1141 | the same for directory chains |
| SchemaStore.StoreOutput.MergeDirectoryRecords | LTFSCopyGUIOxide/crates/schema/src/lib.rs:2183-2223 | the new store is the specified splice, or the call is refused |
| SchemaStore.StoreOutput.CalculateDirectoryTotals | LTFSCopyGUIOxide/crates/schema/src/lib.rs:2286-2315 | the sums over the subdirectories' headers are the true subtree counts |
| SchemaStore.StoreOutput.NormalizeDirectoryChain | LTFSCopyGUIOxide/crates/schema/src/lib.rs:2225-2284 | in place, the chain becomes a layout of the recursive merge, every surviving directory has the next UID in turn, and nothing outside the forest is touched; terminates on the number of directories below |
| SchemaStore.StoreOutput.NormalizeDirectory | LTFSCopyGUIOxide/crates/schema/src/lib.rs:2317-2340 | one directory is numbered, its subdirectories are normalised and its header has its new chain and totals |
| SchemaStore.StoreOutput.CopyFileEntries | LTFSCopyGUIOxide/crates/schema/src/lib.rs:1173-1443 | each copied entry has its record rewritten under the next UID and its selection moved up by the base, no selection staying none; refused exactly when some entry fails its range check or some record is not rewritable |
| SchemaStore.StoreOutput.CopyHeaders | LTFSCopyGUIOxide/crates/schema/src/lib.rs:1173-1443 | every header's two first-child links are rebased, once each; refused exactly when an entry names no header or a link is below -1 |
| SchemaStore.StoreOutput.CopyDirectoryEntries | LTFSCopyGUIOxide/crates/schema/src/lib.rs:1173-1443 | every directory entry is rebased, its selection moved up by the base; refused exactly when one of its numbers is below -1 |
| SchemaStore.StoreOutput.AppendMergeSource | LTFSCopyGUIOxide/crates/schema/src/lib.rs:1173-1443 | the target keeps all it had, and behind it stands the relocated source with the two returned chains; its selections continue the target's, each number given once; refused exactly when one of these checks fails |
| SchemaStore.StoreOutput.ParseContents | LTFSCopyGUIOxide/crates/schema/src/lib.rs:4579-4931 | parsing a directory's children lays out exactly those children, with true totals, puts file records one after another, and gives each cell the next free selection once |
| SchemaStore.StoreOutput.ParseDirectory | LTFSCopyGUIOxide/crates/schema/src/lib.rs:4753-4833 | header first, children, then the header completed: exactly one new directory, whose own selection comes before those of what it holds |
| SchemaStore.ParseMergeSource | LTFSCopyGUIOxide/crates/schema/src/lib.rs:4452-4530 | an input parsed into its own store is well formed and denotes the input, and its cells' selections are 0 to the selection count, each once |
| SchemaStore.MergeSchemas | LTFSCopyGUIOxide/crates/schema/src/lib.rs:5215-5289 | the merge succeeds exactly when every file record can be rewritten; then the root denotes the inputs' files and the recursive merge of their directories, every file is reachable exactly once, files and surviving directories carry the UIDs 1 to highest_file_uid once each, all totals are true, and the selections of all cells with the root's 0 are pairwise different and exactly 0 to the selection count |
| Selections.GivenOnce | LTFSCopyGUIOxide/crates/schema/src/lib.rs:957-963 | where every number was given out once, the selections of all file cells and all directory cells are pairwise different and exactly those numbers |
| Selections.SourceNumbered | LTFSCopyGUIOxide/crates/schema/src/lib.rs:1173-1443 | a copied source whose selections were 0 to its count brings exactly the numbers from the base on |
| Selections.TouchesSelections | LTFSCopyGUIOxide/crates/schema/src/lib.rs:2183-2355 | relinking, and with it the whole in-place merge, changes no cell's selection |
| RecordUid.RewriteFileRecordUid | LTFSCopyGUIOxide/crates/schema/src/lib.rs:691-854 | the event loop computes the copying machine's output |
| RecordUid.RewriteIsTreeEdit | LTFSCopyGUIOxide/crates/schema/src/lib.rs:691-854 | the machine refuses exactly the records holding a refused construct, and otherwise only the first `fileuid` child is replaced, or one appended |
| RecordUid.RewriteHollow | LTFSCopyGUIOxide/crates/schema/src/lib.rs:691-854 | an empty-element record becomes a record with just the UID |
| RecordUid.OtherChildrenKept | LTFSCopyGUIOxide/crates/schema/src/lib.rs:691-854 | everything that is not a UID element is kept, in order |
| RecordUid.UidTakesEffectIff | LTFSCopyGUIOxide/crates/schema/src/lib.rs:691-854 | the new UID is the one the full parser reports, for every number, exactly when no `fileuid` element with content follows the first `fileuid` child |
| RecordUid.TwoUidsExample | LTFSCopyGUIOxide/crates/schema/src/lib.rs:691-854 | a record with two UID elements on which the rewrite has no effect |
| RecordUid.PrintedNumberParses | LTFSCopyGUIOxide/crates/schema/src/file_parser.rs:320-348 | a UID written in decimal is parsed back, for every 64-bit number |
| FileRecord.UidRewriteParses | LTFSCopyGUIOxide/crates/schema/src/lib.rs:691-854 | a record copied under a new UID parses exactly as before except for its UID |
| RecordUid.RewriteTwice | LTFSCopyGUIOxide/crates/schema/src/lib.rs:691-854 | rewriting a record that was rewritten before is rewriting it once: nothing but the UID depends on the number |
| MergeConservation.MergeConserves | LTFSCopyGUIOxide/crates/schema/src/lib.rs:5215-5289 | the multiset of (path, file) pairs of the inputs, up to UIDs, is that of the merged store |
| MergeConservation.EachFileNumbered | LTFSCopyGUIOxide/crates/schema/src/lib.rs:5215-5289 | every file cell of the merged store holds some input's record rewritten under the cell's own number |
| MergeConservation.ReportedUid | LTFSCopyGUIOxide/crates/schema/src/lib.rs:691-854 | the full parser reports that number for the merged file, unless the input's record has a later `fileuid` with content |
| MergeConservation.MergedUids | LTFSCopyGUIOxide/crates/schema/src/lib.rs:5215-5289 | so when no input record has one, the UIDs reported for the cells are 1, 2 and so on |
| FileParser.FileParser.SkipElement | LTFSCopyGUIOxide/crates/schema/src/file_parser.rs:537-569 | the depth counter consumes exactly the element, and refuses it exactly when something refused is nested anywhere in it |
| FileParser.FileParser.ReadText | LTFSCopyGUIOxide/crates/schema/src/file_parser.rs:513-535 | the text of an element without that of nested elements, at whatever depth, which are consumed |
| FileParser.FileParser.ParseExtent | LTFSCopyGUIOxide/crates/schema/src/file_parser.rs:474-511 | the extent the element's children describe |
| FileParser.FileParser.ParseExtents | LTFSCopyGUIOxide/crates/schema/src/file_parser.rs:436-472 | all extents in order, after those read before |
| FileParser.FileParser.ParseFirstExtent | LTFSCopyGUIOxide/crates/schema/src/file_parser.rs:268-318 | the first extent's numbers; the others are only consumed |
| FileParser.FileParser.ParseXattr | LTFSCopyGUIOxide/crates/schema/src/file_parser.rs:401-434 | key and value, the last of each |
| FileParser.FileParser.ParseXattrs | LTFSCopyGUIOxide/crates/schema/src/file_parser.rs:363-399 | all attributes in order, after those read before |
| FileParser.FileParser.ParseChild | LTFSCopyGUIOxide/crates/schema/src/file_parser.rs:320-348 | the field that the child's name stands for takes the decoded text, or the child's list is added to the record |
| FileParser.FileParser.FindRoot | LTFSCopyGUIOxide/crates/schema/src/file_parser.rs:31-56 | only declarations, comments, processing instructions and blank text may stand before the `file` element |
| FileParser.FileParser.Parse | LTFSCopyGUIOxide/crates/schema/src/file_parser.rs:31-89 | refused exactly when a child cannot be read; otherwise every field is the decoded text of the last child with content of its name, or the default, and extents and attributes come from all lists in order, each from its own named children |
| FileRecord.FullDescribes | LTFSCopyGUIOxide/crates/schema/src/file_parser.rs:320-361 | field by field, with the element names written out: the record a list of children describes, over what was read before |
| FileRecord.FullIs | LTFSCopyGUIOxide/crates/schema/src/file_parser.rs:31-89 | the record of a whole document is readable exactly when each child is, and is then the one described |
| TextForms.EscapesDecode | LTFSCopyGUIOxide/crates/schema/src/lib.rs:579-584 | "%25" becomes a percent sign that is not looked at again; every other character stays |
| TextForms.Trimmed | LTFSCopyGUIOxide/crates/schema/src/file_parser.rs:320-348 | trimming takes the white space off both ends and nothing else |
| TextForms.WhiteSpaceIs | LTFSCopyGUIOxide/crates/schema/src/file_parser.rs:31-89 | the code points that count as white space |
| TextForms.TruthIs | LTFSCopyGUIOxide/crates/schema/src/lib.rs:586-592 | true and 1, false and 0, in any case, after trimming; anything else leaves the default |
| TextForms.PartitionIs | LTFSCopyGUIOxide/crates/schema/src/lib.rs:613-619 | partition b is 1, whatever its case, everything else 0 |
| TextForms.NumberIs | LTFSCopyGUIOxide/crates/schema/src/file_parser.rs:320-348 | a run of decimal digits after an optional sign is worth its places, and counts if it has 64 bits |
| TextForms.NotANumber | LTFSCopyGUIOxide/crates/schema/src/file_parser.rs:320-348 | everything else counts as zero |
| TextForms.ReferencesByName | LTFSCopyGUIOxide/crates/schema/src/lib.rs:556-577 | the five named references, and the refusal of every other name |
| TextForms.ReferencesByNumber | LTFSCopyGUIOxide/crates/schema/src/lib.rs:556-577 | a decimal or hexadecimal reference gives the character of that number, if there is one |
| TextForms.NoReference | LTFSCopyGUIOxide/crates/schema/src/lib.rs:556-577 | a reference by something that is no number is refused |
| FileParser.FileParser.ParseName | LTFSCopyGUIOxide/crates/schema/src/file_parser.rs:93-144 | the first name, found without reading past it |
| FileParser.FileParser.ParseLength | LTFSCopyGUIOxide/crates/schema/src/file_parser.rs:146-197 | the first length, found without reading past it |
| FileParser.FileParser.ParseSummary | LTFSCopyGUIOxide/crates/schema/src/file_parser.rs:199-266 | name, length and first extent |
| FileRecord.FastParsersAgree | LTFSCopyGUIOxide/crates/schema/src/file_parser.rs:31-318 | whatever the full parser accepts the fast parsers accept; with at most one child of the kind in question they report its name, length and first extent; in general each of the five fields agrees exactly when the child that parser believes says what the child the full parser believes says |
| FileRecord.TwoNamesExample | LTFSCopyGUIOxide/crates/schema/src/file_parser.rs:93-144 | a record with two names: the name parser reports the first, the full parser the last |
| FileRecord.TwoListsExample | LTFSCopyGUIOxide/crates/schema/src/file_parser.rs:199-318 | a record with two extent lists: the summary reports the second's first extent, the full parser has the first's |
| RecordBarcode.CopyRecord | LTFSCopyGUIOxide/crates/schema/src/lib.rs:1573-1676 | the copying loop writes the record without comments and layout, with the barcode in its containers or in a new one, and refuses exactly the records holding a refused construct |
| RecordBarcode.CopyContainer | LTFSCopyGUIOxide/crates/schema/src/lib.rs:1728-1805 | the inner loop copies a container and puts the barcode before its end tag |
| BarcodeReading.BarcodeIsOneMoreAttribute | LTFSCopyGUIOxide/crates/schema/src/lib.rs:1573-1805 | a record the full parser accepts is copied and reads as before but for its attributes: one more per container, so that the barcode is the one attribute added, at the end, exactly when the record has at most one container |
| BarcodeReading.TwoContainersExample | LTFSCopyGUIOxide/crates/schema/src/lib.rs:1573-1805 | a record with two containers gains the attribute twice |
| BarcodeReading.StrippedChild | LTFSCopyGUIOxide/crates/schema/src/lib.rs:594-611 | dropping comments and layout whitespace changes nothing a parser reads from a child |
| PoolState.CapacityFits | LTFSCopyGUIOxide/crates/fastreader/src/fast_reader/small_files.rs:293-310 | a file's size class is large enough for it |
| PoolState.CapacityMonotone | LTFSCopyGUIOxide/crates/fastreader/src/fast_reader/small_files.rs:293-310 | no file up to the threshold needs more than the threshold's own class, so it fits the demand reserve |
| PoolState.CapacityLeast | LTFSCopyGUIOxide/crates/fastreader/src/fast_reader/small_files.rs:293-310 | files up to 4 MiB are small, and each gets the least of the seven sizes that takes it, an empty one none |
| PoolState.CleanKeeps | LTFSCopyGUIOxide/crates/fastreader/src/fast_reader/small_files.rs:100-116 | dropping stale items loses no live one |
| SmallFiles.FrontDecides | LTFSCopyGUIOxide/crates/fastreader/src/fast_reader/small_files.rs:145-192 | if anything in a class queue is admissible its front is, and is preferred |
| SmallFiles.DemandInFront | LTFSCopyGUIOxide/crates/fastreader/src/fast_reader/small_files.rs:82-98 | the demanded file stands at the front of its queue |
| SmallFiles.FlatMerge | LTFSCopyGUIOxide/crates/fastreader/src/fast_reader/small_files.rs:130-192 | comparing class fronts one after the other yields the choice over one flat list |
| SmallFiles.NoDemandDeadlock | LTFSCopyGUIOxide/crates/fastreader/src/fast_reader/small_files.rs:130-192 | in every state satisfying the invariant, while the consumer waits for a pending file admission picks that file and no other |
| SmallFiles.NeverStuck | LTFSCopyGUIOxide/crates/fastreader/src/fast_reader/small_files.rs:376-416 | a waiting consumer's file is settled, being worked on, startable now, or other reads in progress hold every place |
| SmallFiles.AccountedSet | LTFSCopyGUIOxide/crates/fastreader/src/fast_reader/small_files.rs:388-415 | the counters remain the exact sums over the entries when one entry changes |
| SmallFiles.AccountedRemove | LTFSCopyGUIOxide/crates/fastreader/src/fast_reader/small_files.rs:955-961 | removing an entry gives back exactly what it held; no subtraction saturates |
| SmallFiles.EnqueueKeeps | LTFSCopyGUIOxide/crates/fastreader/src/fast_reader/small_files.rs:82-128 | queueing, in front or at the back, keeps the queues ordered and complete |
| SmallFiles.AdmitKeeps | LTFSCopyGUIOxide/crates/fastreader/src/fast_reader/small_files.rs:388-415 | admission keeps the invariant: budget and number of active files within their limits |
| SmallFiles.MoveKeeps | LTFSCopyGUIOxide/crates/fastreader/src/fast_reader/small_files.rs:754-786 | a step that neither takes nor gives up budget keeps the invariant |
| SmallFiles.DropKeeps | LTFSCopyGUIOxide/crates/fastreader/src/fast_reader/small_files.rs:955-961 | dropping a settled file keeps the invariant |
| SmallFiles.PendKeeps | LTFSCopyGUIOxide/crates/fastreader/src/fast_reader/small_files.rs:872-941 | a new, demanded or retried file keeps the invariant; a retry keeps its own reservation |
| SmallFiles.SmallFilePool.constructor | LTFSCopyGUIOxide/crates/fastreader/src/fast_reader/small_files.rs:799-870 | the empty pool satisfies the invariant for every configuration the caller may choose |
| SmallFiles.SmallFilePool.EnqueueIndex | LTFSCopyGUIOxide/crates/fastreader/src/fast_reader/small_files.rs:82-98 | a new generation and one item in front or at the back |
| SmallFiles.SmallFilePool.CleanQueueFront | LTFSCopyGUIOxide/crates/fastreader/src/fast_reader/small_files.rs:100-116 | stale items leave the front of one queue |
| SmallFiles.SmallFilePool.TakeNextPending | LTFSCopyGUIOxide/crates/fastreader/src/fast_reader/small_files.rs:130-192 | the pick is that of a single flat list: the newest admissible demanded file, otherwise the oldest admissible look-ahead file, nothing only if nothing is admissible |
| SmallFiles.PickIsRight | LTFSCopyGUIOxide/crates/fastreader/src/fast_reader/small_files.rs:130-192 | what the queues pick is the file in demand if it fits, otherwise the first queued of the pending files that fit |
| SmallFiles.SmallFilePool.OpenNext | LTFSCopyGUIOxide/crates/fastreader/src/fast_reader/small_files.rs:376-416 | one turn of an open worker; with a place free it starts the file in demand; told by the files alone, nothing is picked only if no pending file fits beside the demand reserve, and otherwise the one queued first of those that fit |
| SmallFiles.SmallFilePool.Enqueue | LTFSCopyGUIOxide/crates/fastreader/src/fast_reader/small_files.rs:252-290 | every case of queueing: new, already known, demanded while pending, too large, or after shutdown |
| SmallFiles.SmallFilePool.SmallFailure | LTFSCopyGUIOxide/crates/fastreader/src/fast_reader/small_files.rs:312-337 | the failed file leaves the active ones and keeps its reservation |
| SmallFiles.SmallFilePool.FinishEmpty | LTFSCopyGUIOxide/crates/fastreader/src/fast_reader/small_files.rs:451-461 | an empty file is ready once opened |
| SmallFiles.SmallFilePool.SubmitRead | LTFSCopyGUIOxide/crates/fastreader/src/fast_reader/small_files.rs:462-515 | the worker's reservation passes to a read in flight |
| SmallFiles.SmallFilePool.Complete | LTFSCopyGUIOxide/crates/fastreader/src/fast_reader/small_files.rs:754-786 | a completed read is ready or failed, and the counters follow |
| SmallFiles.SmallFilePool.WaitStep | LTFSCopyGUIOxide/crates/fastreader/src/fast_reader/small_files.rs:872-941 | take, retry, give up or wait, as the file's state says |
| SmallFiles.SmallFilePool.RetryFailed | LTFSCopyGUIOxide/crates/fastreader/src/fast_reader/small_files.rs:872-941 | the retried file is pending at the front with the reservation it kept |
| SmallFiles.SmallFilePool.Fail | LTFSCopyGUIOxide/crates/fastreader/src/fast_reader/small_files.rs:642-650 | the watchdog's verdict ends the run; nothing else changes |
| SmallFiles.SmallFilePool.Shutdown | LTFSCopyGUIOxide/crates/fastreader/src/fast_reader/small_files.rs:963-970 | workers are told to stop; nothing else changes |
| SmallFiles.SmallFilePool.Release | LTFSCopyGUIOxide/crates/fastreader/src/fast_reader/small_files.rs:955-961 | the file and its budget are given back |
| PoolWaiting.TakeStep | LTFSCopyGUIOxide/crates/fastreader/src/fast_reader/small_files.rs:376-516 | whatever section a thread of the pool runs next, it keeps the invariant, the set of files and the file being read out |
| PoolWaiting.WaitTake | LTFSCopyGUIOxide/crates/fastreader/src/fast_reader/small_files.rs:872-941 | the consumer gets the file it demanded, with its reservation, or is refused because it was cancelled, the pool is at an end, or the file failed for good; no other file is added |
| BridgeRing.StepKeeps | LTFSCopyGUIOxide/crates/fastreader/src/fast_reader/bridge.rs:126-213 | every atomic action of producer, consumer or observer keeps the ring invariant |
| BridgeRuns.RunsKeep | LTFSCopyGUIOxide/crates/fastreader/src/fast_reader/bridge.rs:126-213 | the invariant holds in every state of every interleaving |
| BridgeRuns.FirstInFirstOut | LTFSCopyGUIOxide/crates/fastreader/src/fast_reader/bridge.rs:126-213 | in every reachable state the payloads delivered are a prefix of those published, and counters and occupancy stay within the ring |
| BridgeRuns.SlotUndisturbed | LTFSCopyGUIOxide/crates/fastreader/src/fast_reader/bridge.rs:637-724 | the slot the consumer owns is not changed by any action of anyone |
| BridgeRuns.WritesApart | LTFSCopyGUIOxide/crates/fastreader/src/fast_reader/bridge.rs:126-213 | while the consumer owns a slot the producer's next slot is another one |
| BridgeRuns.AcquireSucceeds | LTFSCopyGUIOxide/crates/fastreader/src/fast_reader/bridge.rs:637-724 | a granted acquire delivers the next published payload, and fails only for another file |
| BridgeRuns.AcquireDone | LTFSCopyGUIOxide/crates/fastreader/src/fast_reader/bridge.rs:637-724 | an acquire returns DONE only when the producer has completed and every slot was released |
| BridgeRuns.ReleaseSucceeds | LTFSCopyGUIOxide/crates/fastreader/src/fast_reader/bridge.rs:726-769 | releasing with the token received always succeeds, and neither counter goes below zero |
| BridgeRuns.SlotKept | LTFSCopyGUIOxide/crates/fastreader/src/fast_reader/bridge.rs:637-769 | from the grant to the release, over every run, the slot the consumer owns and its claim stay as they are |
| BridgeRuns.CancelEndsPublishing | LTFSCopyGUIOxide/crates/fastreader/src/fast_reader/bridge.rs:126-213 | after a cancellation at most the payload that was past the check is still published, over every run |
| BridgeRuns.WaitsEnd | LTFSCopyGUIOxide/crates/fastreader/src/fast_reader/bridge.rs:99-124 | no wait outlasts a cancellation or an error; without either it ends only with a permit or its time limit |
| BridgeWatch.DoneAfterCompletion | LTFSCopyGUIOxide/crates/fastreader/src/fast_reader/bridge.rs:582-635 | `wait_until_buffered` begun after completion returns DONE only on a drained ring |
| BridgeWatch.ComesToRest | LTFSCopyGUIOxide/crates/fastreader/src/fast_reader/bridge.rs:126-213 | whatever publish, acquire or release is in progress, both sides can finish it and drain the ring |
| BridgeWatch.StaleDone | LTFSCopyGUIOxide/crates/fastreader/src/fast_reader/bridge.rs:582-635 | from every such state a schedule in which a waiting call returns DONE on a ring that is not drained |
| BridgeWatch.StuckDone | LTFSCopyGUIOxide/crates/fastreader/src/fast_reader/bridge.rs:582-635 | with the consumer stuck on a slot of another file, a schedule in which a call returns DONE on a ring that is not drained |
| BridgeWatch.StaleDoneFromStart | LTFSCopyGUIOxide/crates/fastreader/src/fast_reader/bridge.rs:582-635 | the same from a fresh ring, for the first call with a positive target |
| BridgeWatch.DoneMeansDrainedIff | LTFSCopyGUIOxide/crates/fastreader/src/fast_reader/bridge.rs:582-635 | the DONE of a call that begins in any reachable state means drained exactly when, at its start, the producer had completed, the run was cancelled or failed, nothing was asked for, or the consumer was stuck on a slot of another file with the ring full or filled to the target |
| RingIndex.DistinctSlots | LTFSCopyGUIOxide/crates/fastreader/src/fast_reader/bridge.rs:38-57 | sequence numbers less than a lap apart never share a slot |
| Alignment.AlignUpLeast | LTFSCopyGUIOxide/crates/fastreader/src/fast_reader/async_reader.rs:102-113 | the result is the least multiple of the alignment not below the value |
| AsyncReader.CutJoins | LTFSCopyGUIOxide/crates/fastreader/src/fast_reader/async_reader.rs:429-475 | the consumed pieces put together are the file, each byte once |
| AsyncReader.TilesSubmit | LTFSCopyGUIOxide/crates/fastreader/src/fast_reader/async_reader.rs:273-312 | submitting extends the tiling of [next_consume, next_submit) by one chunk |
| AsyncReader.TilesConsume | LTFSCopyGUIOxide/crates/fastreader/src/fast_reader/async_reader.rs:429-475 | consuming shortens the tiling by its first chunk |
| AsyncReader.WaitsForSomething | LTFSCopyGUIOxide/crates/fastreader/src/fast_reader/async_reader.rs:429-475 | when the next chunk has not arrived a read is in flight, so the wait ends |
| AsyncReader.ArrivalsWell | LTFSCopyGUIOxide/crates/fastreader/src/fast_reader/async_reader.rs:333-414 | a port at its best reports only reads in flight, each once and in full, and at least one if there is one |
| AsyncReader.AsyncSequentialReader.Open | LTFSCopyGUIOxide/crates/fastreader/src/fast_reader/async_reader.rs:165-271 | the opened reader is valid at its start offset; refused exactly for a cancellation, an open error, an unfit file or configuration, and the first of these is reported |
| AsyncReader.AsyncSequentialReader.Submit | LTFSCopyGUIOxide/crates/fastreader/src/fast_reader/async_reader.rs:273-312 | the next chunk's read starts at a multiple of the chunk size and fits its buffer; it fails exactly when cancelled or with the code reported |
| AsyncReader.AsyncSequentialReader.PrimeLimit | LTFSCopyGUIOxide/crates/fastreader/src/fast_reader/async_reader.rs:314-331 | idle requests are filled; afterwards something is outstanding unless the file ended |
| AsyncReader.AsyncSequentialReader.ReceiveCompletions | LTFSCopyGUIOxide/crates/fastreader/src/fast_reader/async_reader.rs:333-414 | a batch of completions in any order; exactly which error, and what completed came from the batch |
| AsyncReader.AsyncSequentialReader.CheckHead | LTFSCopyGUIOxide/crates/fastreader/src/fast_reader/async_reader.rs:446-463 | the chunk's bytes, or the failure that the completed read's own result is: its code, or a length out of range |
| AsyncReader.HeadReason | LTFSCopyGUIOxide/crates/fastreader/src/fast_reader/async_reader.rs:446-463 | a failed read at the head was reported by an answer of the system, or had failed before the run |
| AsyncReader.AsyncSequentialReader.CompletedRequestAt | LTFSCopyGUIOxide/crates/fastreader/src/fast_reader/async_reader.rs:158-162 | the completed request at an offset, if there is one |
| AsyncReader.AsyncSequentialReader.Run | LTFSCopyGUIOxide/crates/fastreader/src/fast_reader/async_reader.rs:429-475 | for every completion order the chunks consumed are consecutive from the start, all of them on success; a failure is one that an answer used in the run reported, a cancellation, or held before; and when nothing goes wrong the run finishes |
| AsyncReader.NextFileRetry | LTFSCopyGUIOxide/crates/fastreader/src/fast_reader/async_reader.rs:548-561 | retries count from the last progress and stop at the limit |
| AsyncReader.Attempt | LTFSCopyGUIOxide/crates/fastreader/src/fast_reader/async_reader.rs:658-801 | one attempt delivers consecutive chunks from the current position; its failure was caused by an answer it used; it finishes when nothing goes wrong |
| AsyncReader.ReadFileOverlapped | LTFSCopyGUIOxide/crates/fastreader/src/fast_reader/async_reader.rs:658-801 | over all attempts the chunks delivered are consecutive, and on success exactly the file's chunks; it goes on past no cancellation it sees; with retries left it fails only when cancelled, or on a fatal code, an unknown completion or a refused file or configuration, that an answer reported; every retry was caused by an answer that may pass, more than the limit when the retries are used up; when nothing goes wrong the whole file is read, in whatever order the reads complete; terminates by (bytes left, retries left) |
| NativeRing.ChunkingInvisible | LTFSCopyGUIOxide/crates/fastreader/src/fast_reader/native_reader.rs:256-342 | cutting a file into chunks and these into slots gives the slots of the uncut file |
| NativeRing.StreamCutUp | LTFSCopyGUIOxide/crates/fastreader/src/fast_reader/native_reader.rs:200-342 | a file's slots are its bytes in order, each starting where the last one ended, all full but the last, then an empty one with flag 1 at the file's end |
| NativeRing.RingPut | LTFSCopyGUIOxide/crates/fastreader/src/fast_reader/native_reader.rs:200-254 | writing a free slot keeps every published piece in its slot |
| NativeRing.RingTake | LTFSCopyGUIOxide/crates/fastreader/src/fast_reader/native_reader.rs:1141-1162 | releasing a slot keeps every other published piece in its slot |
| NativeRing.NativeState.AcquireSlot | LTFSCopyGUIOxide/crates/fastreader/src/fast_reader/native_reader.rs:1069-1139 | the slot acquired carries the oldest piece not released, or the code says why there is none |
| NativeRing.NativeState.WaitUntilBuffered | LTFSCopyGUIOxide/crates/fastreader/src/fast_reader/native_reader.rs:1020-1062 | the buffer wait ends well exactly when the bytes published and not released reach the target, the run is done, or every slot is in use, or at the deadline once everything selected was read |
| NativeRing.NativeState.ReleaseSlot | LTFSCopyGUIOxide/crates/fastreader/src/fast_reader/native_reader.rs:1141-1162 | released exactly with the token of the oldest piece, and the counters give back its bytes |
| NativeRing.NativeState.Publish | LTFSCopyGUIOxide/crates/fastreader/src/fast_reader/native_reader.rs:200-254 | one piece is published, or nothing: because of a cancellation, an error, a consumer that never made room, or a piece larger than a slot, each told apart |
| NativeRing.NativeState.PublishBatch | LTFSCopyGUIOxide/crates/fastreader/src/fast_reader/native_reader.rs:256-342 | a block's pieces are published in order, whatever the consumer does meanwhile; a prefix of them only when cancelled, failed or never given room, each told apart |
| NativeWorker.PublishContent | LTFSCopyGUIOxide/crates/fastreader/src/fast_reader/native_reader.rs:405-574 | small path and large path publish the same slots and hash the file's bytes; a failure has one of the listed causes: the pool, the read, a stopped run, or no room |
| NativeWorker.PublishSmall | LTFSCopyGUIOxide/crates/fastreader/src/fast_reader/native_reader.rs:484-515 | a small file is demanded from the pool, published and given back; a failure has one of the listed causes |
| NativeWorker.LookAhead | LTFSCopyGUIOxide/crates/fastreader/src/fast_reader/native_reader.rs:390-402 | small files queued ahead are exactly files still to come |
| NativeWorker.ProcessFile | LTFSCopyGUIOxide/crates/fastreader/src/fast_reader/native_reader.rs:405-574 | a file's slots, its recorded hash, then its end-of-file slot; a failure has one of the listed causes |
| NativeWorker.RunWorker | LTFSCopyGUIOxide/crates/fastreader/src/fast_reader/native_reader.rs:344-594 | a successful run publishes exactly the files' canonical streams in order, with every file's hash of its own bytes, and the pool empty with all its budget given back; any other run stopped in one file, with all files before it published and one of the listed causes in that file, or the pool's configuration was refused; an interruption leaves the run cancelled, everything else leaves it failed |
| TextReplacement.ReplacedLength | LtfsCommand/util.c:59-119 | the result is as long as the first pass computes |
| TextReplacement.ReplaceBySelf | LTFSCopyGUI.Native/NativeLtfsRegistry.cpp:155-175 | replacing a text by itself, or without a match, changes nothing |
| TextReplacement.ReplaceAllGrowing | LTFSCopyGUI.Native/NativeLtfsRegistry.cpp:155-175 | the moving search position yields the leftmost non-overlapping replacement; the flag tells whether there was a match |
| StringReplacement.NewLengthWraps | LtfsCommand/util.c:91-97 | the length computed in wrapping `size_t` arithmetic is the exact one modulo 2^64, also when the text shrinks |
| StringReplacement.FitsIff | LtfsCommand/util.c:91-97 | the routine's size check says whether the result fits exactly when the exact length fits or is still too large after wrapping |
| StringReplacement.WrappedFitExample | LtfsCommand/util.c:91-97 | a text of 2^31 letters and a replacement for which, with any 32-bit buffer length above 2^31, the wrapped check lets a result through that does not fit |
| StringReplacement.CountMatches | LtfsCommand/util.c:59-119 | pass one counts the non-overlapping matches from the left |
| StringReplacement.HoldingStep | LtfsCommand/util.c:59-119 | one replacement in place keeps the invariant between the text done, the text left and the stale bytes |
| StringReplacement.StaleHasNoMatch | LtfsCommand/util.c:59-119 | beyond the shrunken string every NUL-delimited piece is shorter than the pattern, so the rescan finds nothing |
| StringReplacement.ReplaceInPlace | LtfsCommand/util.c:59-119 | pass two yields the leftmost non-overlapping replacement and touches nothing beyond the longer of the two strings |
| StringReplacement.StringReplace | LtfsCommand/util.c:59-119 | count and content are those of the replacement exactly when there is a match and the result fits; otherwise 0 and an untouched buffer, or, exactly when the size check fails, the point where the program would write past its buffer |
| Getopt.ScanConserves | LtfsCommand/getopt.c:517-592 | options with their arguments and operands are together the command line's elements |
| Getopt.KindIs | LtfsCommand/getopt.c:835-1134 | an option takes no, a required or an optional argument as none, one or two colons follow its first occurrence |
| Getopt.NoKind | LtfsCommand/getopt.c:835-1134 | a character that does not occur there, and the colon itself, is no option |
| Getopt.SwapBlocks | LtfsCommand/getopt.c:284-362 | the inner loop swaps two blocks of equal length |
| Getopt.Exchange | LtfsCommand/getopt.c:284-362 | the block-swap loop exchanges two adjacent blocks of any lengths, both in order |
| Getopt.Scanner.Advance | LtfsCommand/getopt.c:517-592 | the permuting part keeps argv a rearrangement of the command line with options read, operands skipped, then the rest |
| Getopt.Scanner.Next | LtfsCommand/getopt.c:487-592 | each call returns the next option of the command line, or ends with options in front and operands from `optind` on |
| Getopt.Scanner.Decode | LtfsCommand/getopt.c:835-1134 | one character of an option element: its kind, its argument, and where the scan stands |
| Getopt.ParseAll | LtfsCommand/getopt.c:487-592 | the options come out in order, and argv ends with all option elements first and all operands from `optind` on, both in original order |
| RunFormat.LebRoundTrip | LTFSCopyGUIOxide/crates/schema/src/lib.rs:2963-3011 | every 32-bit length written in 7-bit groups is read back, whatever follows; the fifth byte is the last |
| RunFormat.LebLayout | LTFSCopyGUIOxide/crates/schema/src/lib.rs:2963-2976 | a length's bytes: seven bits each, the lowest first, the high bit on all but the last |
| RunFormat.I64RoundTrip | LTFSCopyGUIOxide/crates/schema/src/lib.rs:2978-3046 | signed 64-bit numbers round-trip through their bytes |
| RunFormat.I64Layout | LTFSCopyGUIOxide/crates/schema/src/lib.rs:2978-3046 | a number's bytes: two's complement, the lowest first |
| RunFormat.WriteU32 | LTFSCopyGUIOxide/crates/schema/src/lib.rs:2963-2976 | the writing loop gives the 7-bit encoding |
| RunFormat.ReadU32 | LTFSCopyGUIOxide/crates/schema/src/lib.rs:2995-3011 | the reading loop gives the decoding, errors included |
| StableMerge.StableSortPermutes | LTFSCopyGUIOxide/crates/schema/src/lib.rs:3239-3257 | the stable sort is a permutation |
| StableMerge.StableSortSorts | LTFSCopyGUIOxide/crates/schema/src/lib.rs:3239-3257 | and sorted by key, then position |
| StableMerge.SortedUnique | LTFSCopyGUIOxide/crates/schema/src/lib.rs:3066-3105 | there is only one such arrangement |
| StableMerge.HeadBeforeRest | LTFSCopyGUIOxide/crates/schema/src/lib.rs:2955-2961 | among run heads the least key of the lowest run precedes everything unread, although positions are no longer known |
| StableMerge.MergeDone | LTFSCopyGUIOxide/crates/schema/src/lib.rs:3066-3105 | merging run heads in that way yields the stable sort of all items |
| TapeSort.TapeOrder | LTFSCopyGUIOxide/crates/schema/src/lib.rs:2902-2914 | the comparison of partition side, start block and UTF-16 path is a total preorder; which one, see TapeSort.TapeOrderIs |
| TapeSort.TapeOrderIs | LTFSCopyGUIOxide/crates/schema/src/lib.rs:2902-2922 | sorting leaves every file once: partition 0 before all others, start blocks rising on each side, at equal blocks paths by their UTF-16 units, at a full tie in traversal order |
| TapeSort.EntryLayout | LTFSCopyGUIOxide/crates/schema/src/lib.rs:2978-3046 | the bytes of a run entry, field by field |
| TapeSort.DecodeEncode | LTFSCopyGUIOxide/crates/schema/src/lib.rs:2978-3046 | run entries round-trip except for the sequence number, which is dropped |
| TapeSort.PopLeast | LTFSCopyGUIOxide/crates/schema/src/lib.rs:2954-2961 | the reversed heap order pops the least key, then the least run |
| TapeSort.MergeRuns | LTFSCopyGUIOxide/crates/schema/src/lib.rs:3066-3105 | the k-way merge of run files writes the stable sort of all entries; the rename of a single run agrees |
| TapeSort.OneRun | LTFSCopyGUIOxide/crates/schema/src/lib.rs:3066-3105 | a single run file is already the result |
| TapeSort.FlushRun | LTFSCopyGUIOxide/crates/schema/src/lib.rs:3239-3257 | a chunk is written as a stably sorted run, or fails on a path too long |
| TapeSort.CollectRuns | LTFSCopyGUIOxide/crates/schema/src/lib.rs:3193-3257 | the selected files in chunks, each a sorted run in the bytes of its run file |
| TapeSort.SortTape | LTFSCopyGUIOxide/crates/schema/src/lib.rs:3193-3257 | for any chunk size the output holds every selected file once in that order: partition 0 first, then start block, then UTF-16 path, then traversal order; it fails exactly on a path too long |
| DirectorySort.DecodeEncode | LTFSCopyGUIOxide/crates/schema/src/lib.rs:3555-3626 | run entries round-trip, sequence included |
| DirectorySort.EntryLayout | LTFSCopyGUIOxide/crates/schema/src/lib.rs:3555-3626 | the bytes of a run entry, field by field, sequence included |
| DirectorySort.ChainWalks | LTFSCopyGUIOxide/crates/schema/src/lib.rs:3826-3914 | walking the emitted chain visits every entry once in order and ends in -1 |
| DirectorySort.PopLeast | LTFSCopyGUIOxide/crates/schema/src/lib.rs:3662-3676 | the heap pops the least name, then the least sequence |
| DirectorySort.FlushRun | LTFSCopyGUIOxide/crates/schema/src/lib.rs:3715-3748 | a chunk is written as the bytes of a stably sorted run; fails exactly on a name too long to write |
| DirectorySort.Refill | LTFSCopyGUIOxide/crates/schema/src/lib.rs:3594-3660 | a run's reader decodes its next entry into the heap, or finds the run finished |
| DirectorySort.MergeRuns | LTFSCopyGUIOxide/crates/schema/src/lib.rs:3848-3914 | decoding the run files and merging them emits the chain of the stable sort; the count always agrees, so a lost entry is impossible |
| DirectorySort.CollectRuns | LTFSCopyGUIOxide/crates/schema/src/lib.rs:3760-3824 | the walk fails exactly on a broken chain or a name too long, and otherwise leaves sorted runs in the bytes of their files |
| DirectorySort.SortChildren | LTFSCopyGUIOxide/crates/schema/src/lib.rs:3760-3914 | an intact chain becomes at the target the chain of the same entries, each with its own record and selection, names ascending and equal names in their old order; errors exactly for a broken chain, a name too long or a bad target |
| Search.PathIsJoin | LTFSCopyGUIOxide/crates/schema/src/lib.rs:4070-4080 | a path is the join of the non-empty names from the root down |
| Search.SearchCycles | LTFSCopyGUIOxide/crates/schema/src/lib.rs:4187-4279 | resuming from each hit visits every match once in preorder and then starts over |
| Search.ContentKeys | LTFSCopyGUIOxide/crates/schema/src/lib.rs:4082-4173 | no two items below a directory of a laid-out store have the same key |
| Search.EveryDirectorySearchable | LTFSCopyGUIOxide/crates/schema/src/lib.rs:4187-4279 | so in a store with its records one after another every directory can be searched on from hit to hit |
| Search.HitsInTurn | LTFSCopyGUIOxide/crates/schema/src/lib.rs:4187-4279 | resuming from the i-th hit finds the next one, after the last the first again |
| StoreSearch.ParsedSearchable | LTFSCopyGUIOxide/crates/schema/src/lib.rs:4187-4279 | every directory of a parsed input can be searched in turn |
| StoreSearch.MergedSearchable | LTFSCopyGUIOxide/crates/schema/src/lib.rs:4187-4279 | and so can a merged store |
| Search.SearchFindsNothing | LTFSCopyGUIOxide/crates/schema/src/lib.rs:4187-4279 | nothing is found, from any resume point, exactly when nothing matches |
| Search.LostResumePoint | LTFSCopyGUIOxide/crates/schema/src/lib.rs:4244-4267 | a resume point that no longer exists restarts the search |
| Search.SearchState.SearchContents | LTFSCopyGUIOxide/crates/schema/src/lib.rs:4082-4173 | a directory's files, then each subdirectory with all below it; the path buffer is restored |
| Search.SearchStore | LTFSCopyGUIOxide/crates/schema/src/lib.rs:4187-4279 | the search over the flat indexes is the search over the preorder list of their tree, with one wrap; in a store as parsing and merging leave it, resuming from a hit returns the next one and wraps |
| TapeStream.ReadLengthOfRecord | LTFSCopyGUIOxide/crates/fastreader/src/fast_reader/bridge.rs:1005-1041 | short, exact and long records give the length read, an empty one an error |
| TapeStream.TroubleFails | LTFSCopyGUIOxide/crates/fastreader/src/fast_reader/bridge.rs:1005-1041 | the read fails exactly on a filemark, end of medium, sense key or bad status, or when the residual leaves nothing |
| TapeStream.TapeDrive.Read | LTFSCopyGUIOxide/crates/fastreader/src/fast_reader/bridge.rs:973-1003 | every READ is issued with the head known to be on the intended block, and its reply is decoded: it succeeds exactly when the drive reports no trouble and the record is not empty |
| TapeStream.ReadBlockWithRetry | LTFSCopyGUIOxide/crates/fastreader/src/fast_reader/bridge.rs:1053-1130 | which answer of the drive or the user ends the reading, and how: rounds of one attempt and the automatic retries, then the user is asked; a success is the intended record, with the head behind it |
| TapeStream.CleanAnswerReads | LTFSCopyGUIOxide/crates/fastreader/src/fast_reader/bridge.rs:1071-1112 | a clean answer within the automatic retries, with no cancellation before it, reads the block |
| TapeStream.ContentLength | LTFSCopyGUIOxide/crates/fastreader/src/fast_reader/bridge.rs:1180-1230 | contiguous extents over complete records give exactly the file length |
| TapeStream.CheckCoverage | LTFSCopyGUIOxide/crates/fastreader/src/fast_reader/bridge.rs:1180-1230 | the check accepts exactly extents that cover the file from its first to its last byte without gap or overlap |
| TapeStream.SortedExtentsOrder | LTFSCopyGUIOxide/crates/fastreader/src/fast_reader/bridge.rs:1180-1230 | the extents are the given ones by file offset |
| TapeStream.DataSlotsShape | LTFSCopyGUIOxide/crates/fastreader/src/fast_reader/bridge.rs:1230-1338 | every data slot but the last is full, and together they are the content |
| TapeStream.DataSlotsPlaces | LTFSCopyGUIOxide/crates/fastreader/src/fast_reader/bridge.rs:1230-1338 | each data slot is a stretch of the content of its file and starts where the one before ends |
| TapeStream.EndSlot | LTFSCopyGUIOxide/crates/fastreader/src/fast_reader/bridge.rs:1325-1338 | after the data comes one empty slot at the content's end, with flag 1 and the hash |
| TapeStream.CopyToSlots | LTFSCopyGUIOxide/crates/fastreader/src/fast_reader/bridge.rs:1230-1338 | bytes of a record go to slots across slot boundaries, published as each fills; one answer a slot, ending at the first refusal |
| TapeStream.StreamExtent | LTFSCopyGUIOxide/crates/fastreader/src/fast_reader/bridge.rs:1230-1338 | one extent's records continue the file's content exactly; it ends early only by a cancellation, a refused slot, or a whole round of failures and a user who wants no other; not at all where no read fails more often in a row than it is retried |
| TapeStream.StreamTapeFile | LTFSCopyGUIOxide/crates/fastreader/src/fast_reader/bridge.rs:1141-1338 | success means the published slots are exactly the sorted extents' content plus one end-of-file slot with the hash of those bytes; otherwise a prefix of them; on readable records it fails only by a cancellation, a refused slot, or a round of failed attempts and a user who gives up, and it succeeds where no read fails more often in a row than it is retried automatically; invalid arguments publish nothing |

## Left out

- SchemaStore.MergeSchemas: the byte layout of headers and entries is not modelled, cells of arrays stand for them; i32 and i64 limits, which end in an error, are not reached.
- SchemaStore.ParseMergeSource: the schema's XML above the file records is taken as parsed items; scalar directory fields other than name, UID and totals are carried as one value or omitted, and a record's text is written as read.
- SchemaStore.ParseContents: the events between the file records, with their skips and refusals, are taken as parsed items.
- SchemaStore.ParseDirectory: likewise, so a parse error of the schema is not modelled.
- RecordUid.RewriteFileRecordUid: namespaces, tokenizing and escaping belong to the XML library and are not part of this model; texts are taken as already unescaped.
- FileParser.FileParser.Parse: only balanced event streams are considered, as the library delivers them; a truncated record, which is an error, is not modelled.
- RecordBarcode.CopyRecord: the same loop without a barcode, `append_file_record_raw`, and the fixed text for an empty file are omitted.
- SmallFiles.SmallFilePool.Complete: buffers are represented by their reservations, so the free lists of buffers and the refusal of an allocation are left out, as are the timing of retries and the watchdogs' clocks.
- SmallFiles.SmallFilePool.Shutdown: it is called by the consumer after its last wait; joining the threads is left out.
- SmallFiles.NeverStuck: that reads in progress eventually complete is up to the operating system; the lemma says that nothing else is waited for.
- AsyncReader.AsyncSequentialReader.Open: handles, completion ports and cancelling reads that are in flight are abstract; the file's content does not change during a run.
- NativeWorker.RunWorker: reading a large file and publishing its chunks are two phases here, although the program publishes each chunk as it is consumed; the slots and their order are the same. Preparing the next large file's reader ahead of its turn is left out.
- NativeWorker.PublishContent: buffers of the pool carry no bytes here, so what it hands over is taken to be the file's content.
- NativeRing.NativeState.AcquireSlot: waiting is repeated polling, one look a call; `put_back` and statistics are not modelled.
- BridgeRuns.RunsKeep: atomic updates interleave in one order seen by both processes (sequential consistency); sequence numbers do not wrap at 2^64; time-outs are nondeterministic.
- TapeStream.StreamTapeFile: the SCSI transport is a drive that returns the record under its head with a truthful length, or any reply that reports trouble; an error message is just an error, and a record longer than the block size counts up to the block size.
- StringReplacement.StringReplace: what happens after the size check failed, where the program writes past its buffer, is not modelled. A null pattern is the empty one.
- Getopt.ParseAll: long options, the `W;` convention and the ordering flags `+`, `-` and POSIXLY_CORRECT are omitted; the program uses none of them.
- TapeSort.CollectRuns: the files come as a list here too.
- TapeSort.SortTape: the files come as a list in traversal order, since the traversal repeats what Search does; UTF-8 validity and the UTF-16 key of a path are arbitrary functions.
- DirectorySort.SortChildren: the name comparer is an arbitrary total preorder; the library's sort and heap are its stable sort and its least element.
- Search.SearchStore: the keyword test is an arbitrary predicate; the store is well formed, as parsing and merging leave it.
- Windows I/O, memory mapping, registry, devices and services, the C interface's argument checks, progress callbacks, logging and mutex poisoning are not modelled.
- Hash algorithms: a hash is an arbitrary function of the bytes fed to it.
- The XML serializer of a parsed record (`serialization.rs`), the Visual Basic code, `main.c` and `tape.c` are not modelled.
