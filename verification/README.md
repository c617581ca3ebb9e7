# Verified model of the mrimgx consolidation tool

The tool merges a range of a Macrium Reflect backup set into one file. A set is a base file with a full block
index, followed by files whose index lists only what changed; every index entry names a file by number and a
position in it. A merge copies the blocks of the files it absorbs into one new file, rewrites the entries that
named them, claims their numbers, and then deletes them. Its whole claim is that the remaining files restore to
the same image. This project models that pipeline in Dafny and proves the claim.

## How it is organised

One module per source file, each loop a method proved against a specification function, and the theorems on top.

- `Bytes`, `Index`, `Block`, `Json`, `Reader`: little-endian codecs, block headers, flag-ended lists, the footer,
  and the cursor-driven parser.
- `Format`, `Parsed`: the same said without reading: where each field lies, byte by byte, and which bytes are a file.
- `Set`: ownership, discovery, completeness, and flattening as an array that is resized and overwritten.
- `Plan`: the closure of absorbed numbers, the rules, classification, changed positions, the size estimate.
- `Write`, `Output`: the copy loop with its duplicate map, the data region, the metadata region, the whole file.
- `Reread`: what the parser makes of what the writer wrote, and the size accounting.
- `Restore`, `Merge`, `Preserve`: what a set restores to, what a merge leaves, and when the one is what it was.
- `Readback`, `Verify`, `VerifyMerged`: the check after writing, hash verification, and that hashes survive.
- `Runs`, `Complete`, `Plain`, `Discovery`: sequences of merges, when a chain stays complete, sets for which no
  condition is needed, and what discovery finds.
- `Encoding`, `Smallest`, `SmallSets`, `SmallMerges`: libraries that round-trip, a smallest file byte by byte, what the
  writer makes of it, and sets and merges of such files from short specifications.
- `Hazards`, `NumberHazards`, `OrderHazards`, `LockName`: written, accepted merges of such sets that meet the hypotheses
  of the theorems, or fail the condition of one and show what then happens.
- `Commit`, `Cli`: the lock, the temporary file, the rename with adversarial replies, and the whole run. A file
  system object records every state, so a property of all recorded states is a property of a kill at any moment.
- `Outcome`: what the next run's discovery finds on the disk that a successful run leaves.

What other libraries define is a parameter, the record `Json.Foreign`: the hash, the decompressor, the document
codec, the rewrite of those document fields that no merge decision reads, and the undoing of one block. The only
thing assumed of it is that the document codec round-trips. The outcome of every disk operation is a parameter too
(`Cli.World`), so the theorems about a run hold for every behaviour of the disk. `Encoding.Libraries` is such a record
with a real, injective encoding, so what is proved under the round-trip assumption is not proved of nothing.

## What the theorems assume

`Runs.WellFormed` gathers what a set must satisfy: claims are disjoint, file numbers differ, the shape is one, and every
file is what the parser makes of its bytes. The program checks all of it or establishes it by sorting, and a
merge that takes the newest files keeps it.

The theorems about one merge (`Preserve.MergePreservesImageIff`, `Runs.MergeKeepsImageIff`, `Cli.EveryStateRestoresIff`)
hold for every plan the planner accepts. Members are ordered by file number (`src/set.rs:87`) and absorbed by increment
(`src/plan.rs:180-207`), so a plan can skip a file in the middle, and the image can change
(`OrderHazards.SkippedFileChangesImage`). The theorems about sequences of merges, completeness and discovery are about
plans that take the newest files (`Merge.TakesNewest`), for which the condition is simpler. Where increments follow
file numbers every plan does (`Runs.FollowingIsAccepted`); the program never checks that they do.

Which numbers the entries name is not assumed. The program checks that the base's entries name claimed numbers
(`src/set.rs:142-183`) and looks at no others, so the conditions of the main theorems say what the entries must meet.
Sets in which no file names a number of a newer one (`Runs.NoForward`), or in which every named number is claimed by the
file itself or an older one (`Complete.Causal`), have theorems of their own, with simpler conditions.

Every lemma switches automatic induction off, so no proof rests on an induction hypothesis that is not written out.

## What the proofs found

- A merge that takes the newest files keeps the image if and only if every entry that it leaves in use, and that names
  an absorbed number, reads the same bytes from the output, at its old offset
  (`Preserve.NewestMergePreservesImageIff`, `Runs.NewerPointSurvivesIff`): an absorbed block changes position and other
  files are not rewritten. Two kinds of entries stay in use.
  - Those of files above To. The program mentions newer files in a note (`src/cli.rs:384-402`) but does not look at
    their entries. A full index of a Differential above To names absorbed files, and the image as of such a file can
    change: `Hazards.DifferentialAboveChangesImage`.
  - Those of files below From at positions an incremental merge does not cover. An older file that names a number of a
    newer one passes the completeness check, and a merge at the newest file, with nothing above it, can change the
    image: `NumberHazards.OlderEntryChangesImage`.
  Where neither names an absorbed number there is nothing to move (`Preserve.MergePreservesImage`); for a Full with
  incrementals that hold their own blocks that always holds (`Plain`).
- A synthetic Full below the newest file makes the base older. Where retention removed files that a later
  Differential made unnecessary, the accepted merge leaves a set that `check_complete` refuses:
  `Hazards.GapBreaksCompleteness`. A synthetic Full also turns entries of deltas, which the check never looked at, into
  entries of the base: if one names a number nobody claims, the set is refused afterwards
  (`NumberHazards.LooseEntryBreaksCompleteness`). `Complete.CompleteAfterIff` is the exact condition.
- The output parses if and only if the To file's `$AUXDATA` block, when there is one, carries the end-of-list flag.
  The writer relies on it (`src/write.rs:620-627`) and nothing checks it before the write. A root list with `$AUXDATA`
  before `$JSON` breaks it: `Hazards.AuxiliaryFirstBreaksOutput`.
- An output named `merge_running` takes the name of the lock. The run then succeeds, may delete the sources, and
  removes its own output when it drops the lock; `Cli.WriteMerge` states this, `LockName.LockNameLosesOutput` is an
  instance. Every other name is safe.
- The lock file stays behind when it was created but its note could not be written (`src/commit.rs:62-64`),
  although the documentation of the type says a reported failure removes it. `Commit.TakeLock` follows the code.
- The comment on `check_output` says it runs before the rename (`src/write.rs:640`). It runs after the commit
  (`src/cli.rs:446-448`), so a rejected output stays in place beside the sources, which are kept. The model
  follows the code.
- Verification fails on an output that holds no copied block (`src/verify.rs:237-239`), so it reports success on a
  merge exactly when something was copied (`VerifyMerged.HashesSurvive`).

## Model

| member | source | states |
|---|---|---|
| `Index.ElementRoundTrip` | src/index.rs:38-61 | Decoding the 30 bytes of any index element gives that element back. |
| `Index.DeltaRoundTrip` | src/index.rs:76-93 | The same for the 34-byte delta entry. |
| `Format.ElementLayout` | src/index.rs:38-61 | Which thirty bytes are which element: position signed and least significant byte first, hash, length, file number, byte by byte. |
| `Format.DeltaLayout` | src/index.rs:76-93 | Which thirty-four are which delta: the element and the position it replaces. |
| `Index.WriteArray` | src/index.rs:173-203 | The loop appends the bytes of every item, in order. |
| `Bytes.I64RoundTrip` | src/index.rs:39-61 | A signed position survives its two's-complement bytes. |
| `Index.ToBytes` | src/index.rs:173-203 | The writing loops produce exactly the specified bytes: count, reserved entries, count, blocks. |
| `Index.ParseArray` | src/index.rs:221-243 | The array loop yields every item in order, or the error of the first bad one, and moves the cursor by count times stride. |
| `Index.Parse` | src/index.rs:139-169 | The cursor walk over an `$INDEX` payload equals the specification, refusals included. |
| `Index.IndexLength` | src/index.rs:173-203 | The size of an encoded index as a closed formula in its two lengths. |
| `Index.CountsFit` | src/index.rs:206-219 | An index whose payload fits a block header has counts below the saturation point of the count writer. |
| `Index.IndexRoundTrip` | src/index.rs:139-203 | Parsing the bytes of any index that fits a block, in its own form, gives the same index, full or delta. |
| `Format.IndexIff` | src/index.rs:139-169 | The parser accepts exactly the payloads that consist of a count, that many elements, a count, and that many elements or delta elements, with nothing after them; a negative count is none. |
| `Format.CountLayout` | src/index.rs:206-214 | A count is read from four bytes, and is zero where their top bit is set. |
| `Index.WrongFormIsRefused` | src/index.rs:147-169 | Parsing those bytes in the opposite form fails if and only if the index holds a block, whatever the entries hold. |
| `Index.ParsedCounts` | src/index.rs:206-214 | A parsed index holds exactly as many reserved entries and blocks as the two count fields in its payload say. |
| `Block.HeaderRoundTrip` | src/block.rs:117-143 | A 32-byte block header decodes to what was encoded. |
| `Format.HeaderLayout` | src/block.rs:117-143 | Where each field of a header lies, and which bits of byte 28 are the flags; the other bits and bytes are ignored. |
| `Format.WrittenHeader` | src/block.rs:133-143 | A written header has no other bit set, and three zeros at the end. |
| `Block.AlignUp` | src/block.rs:50-52 | The least multiple of 4096 at or above the offset. |
| `Block.Header.ForPayload` | src/block.rs:147-156 | Refused if and only if the payload has 4 GiB or more; otherwise the name, the length, the hash of the payload, and no flag but the last-block one. |
| `Block.FindsFirst` | src/block.rs:196-198 | The first block of that name in the list; none only if there is none. |
| `Block.FooterRoundTrip` | src/block.rs:209-231 | A file that ends in the footer for an offset reads back that offset. |
| `Block.WalkList` | src/block.rs:237-263 | The header loop equals the recursive walk: same blocks, same end, same errors, at most 64 headers. |
| `Block.WalkIffList` | src/block.rs:237-263 | A walk succeeds with a list if and only if that list is a chain of headers at those offsets, at most 64 long, with the end flag on its last block alone. |
| `Block.ChainMoves` | src/block.rs:237-263 | A verbatim copy of a chain at another offset is the same chain with every offset shifted by one constant. |
| `Block.ListMoves` | src/block.rs:237-263 | Walking such a copy of a whole list finds the shifted list. |
| `Block.ListWithNewLast` | src/write.rs:305-334 | Replacing only the last block of a copied list keeps every earlier block and still ends the list. |
| `Json.OwnedFileNumbers` | src/json.rs:120-130 | The list holds exactly the numbers a member claims, its own first, each once; recorded numbers that are no `u16` are dropped. |
| `Reader.ReadPartition` | src/reader.rs:131-154 | One partition read from the cursor, with the same refusals: last block not `$INDEX`, not stored plain, payload or index not readable. |
| `Reader.ReadPartitions` | src/reader.rs:148-162 | The inner cursor loop pushes exactly the partitions of the specification and ends where it ends. |
| `Reader.ReadDisks` | src/reader.rs:140-170 | The same for the outer loop over disks. |
| `Reader.Parse` | src/reader.rs:96-178 | The whole parse equals its specification as a function of the bytes, for every input and every refusal. |
| `Reader.ParsedStructure` | src/reader.rs:96-178 | What a successful parse guarantees: the root list is a list, the shape is the document's, every partition list ends with a plain `$INDEX` whose payload decodes to the index, and every list ends at or before the root list. |
| `Parsed.ParseIff` | src/reader.rs:96-178 | The reader accepts exactly the bytes that end in a footer, whose root list lies where it says and holds a document, and whose metadata region, from the recorded position to the root list, is the lists of the disks and partitions in the document's shape, each partition's ended by a plain `$INDEX` with its payload; and it finds that file. |
| `Parsed.DocumentIff` | src/block.rs:266-292 | A document is found if and only if the first `$JSON` block is unencrypted, within the file and has its recorded hash, and its stored bytes, decompressed where the flag says so, decode to it. |
| `Parsed.DocumentRefusals` | src/block.rs:266-292 | The order in which a document is refused: encryption, end of file, hash, decompression, text. |
| `Reader.ConsiderAll` | src/reader.rs:208-224 | One array raises the maximum to the highest stop among its own entries. |
| `Reader.OwnDataEnd` | src/reader.rs:204-227 | The running maximum is an upper bound of the own entries' stops and is attained, or is zero. |
| `Set.BackupSet.OwnerOf` | src/set.rs:119-121 | The owner map answers exactly as a search of the members for the claimed number. |
| `Set.MissingFileNumbers` | src/set.rs:321-330 | Exactly the numbers between base and newest, or referenced, that nobody owns, ascending and each once. |
| `Set.ReferencedNumbers` | src/set.rs:144-168 | The loops collect exactly the numbers the base's full index and reserved arrays name. |
| `Set.CheckComplete` | src/set.rs:142-183 | Accepts if and only if the set is complete: a base, an owner for every number from base to newest, and one for every number the base names. |
| `Set.MapOwners` | src/set.rs:89-106 | Succeeds if and only if no two members claim one number, and then maps every claimed number to its claimant. |
| `Set.ClaimAll` | src/set.rs:90-105 | Adds a member's numbers to the owner map; refused if and only if one of them is taken. |
| `Set.SortNewestSorts` | src/set.rs:87-87 | The sort puts the highest file number first and keeps every member. |
| `Set.Discover` | src/set.rs:60-111 | Succeeds if and only if something of the set was found, claims are disjoint and the chain is complete; the result is the sorted, filtered candidates. |
| `Set.CheckShape` | src/set.rs:257-279 | Succeeds if and only if every member that is not a split part has the newest member's shape. |
| `Set.LastWriterMeaning` | src/set.rs:226-243 | The last writer of a position is the last delta that names it, said without recursion; there is one if and only if some delta names it. |
| `Set.GrownLengthMeaning` | src/set.rs:232-239 | The grown length is the least length that covers the seed and every named position. |
| `Set.ReplayInPlace` | src/set.rs:229-241 | The loop that resizes and overwrites the array gives, at every position, the last writer, else the seed entry, else a hole; what it grows is all zero in every field. |
| `Set.ReplayOfConcat` | src/set.rs:222-243 | Replaying two delta lists in turn is replaying their concatenation. |
| `Set.ChainIsLastWriterWins` | src/set.rs:208-251 | Member-by-member resolution equals one last-writer-wins replay of the whole history since the newest full index. |
| `Set.FlattenPartition` | src/set.rs:222-243 | The loop from the base to the newest member computes the resolved chain of one partition, skipping split parts. |
| `Set.FlattenDisk` | src/set.rs:218-246 | One row of resolved chains; refused if and only if a partition of the base is not full. |
| `Set.BaseIndex` | src/set.rs:193-201 | The newest full member, or none only if no member is full. |
| `Set.Flatten` | src/set.rs:208-251 | Succeeds if and only if there is a base, one shape, and a full index in every partition of the base; each array is then the resolved chain. |
| `Plan.ClosureOver` | src/plan.rs:195-207 | The set holds exactly the numbers that members of the increment range claim. |
| `Plan.ClosureIsExact` | src/plan.rs:180-207 | With disjoint claims, any one number of a member is absorbed if and only if the member lies in the increment range. |
| `Plan.CheckPair` | src/plan.rs:482-500 | Accepts if and only if the image ids agree, increments do not fall, neither `backup_type` is "diff", and the file numbers differ. |
| `Plan.AcceptedEnds` | src/plan.rs:482-500 | Of an accepted pair neither end is a Differential, they are of one image and differ, and To is not a split part. |
| `Plan.CheckRules` | src/plan.rs:396-458 | Accepts exactly when the pair is allowed, all settings agree, the range holds no split part and, from a delta From, no full index. |
| `Plan.SplitInRange` | src/plan.rs:533-545 | Exactly the paths of the split members in range, so empty if and only if there is none. |
| `Plan.FindsFirstMember` | src/plan.rs:385-390 | The first member with that number, or none only if there is none. |
| `Plan.FullIndexInRange` | src/plan.rs:466-477 | None exactly when no in-range member is full; otherwise the lowest number of such a member. |
| `Plan.ChangedPositions` | src/plan.rs:315-338 | Exactly the positions the absorbed members' delta lists name, ascending, each once. |
| `Plan.PlanPartition` | src/plan.rs:228-275 | The plan of one partition, in either form, as the specification demands. |
| `Plan.PlanPartitions` | src/plan.rs:227-276 | Every partition of To gets its plan, in its slot: reserved entries of To and resolved blocks, each classified. |
| `Plan.EstimateMetadata` | src/plan.rs:345-383 | The accumulated total equals the closed sum over spans, index sizes, document, `$AUXDATA`, allowance and footer. |
| `Plan.Build` | src/plan.rs:210-297 | Succeeds if and only if both numbers exist, the rules hold, To is the newest member and the chain flattens; the result is then the plan of that pair. |
| `Write.OpenSources` | src/write.rs:46-61 | Succeeds if and only if every absorbed number has an owner; every handle reads its owner's bytes. |
| `Write.PayloadHolds` | src/write.rs:196-232 | The range laid out for a key holds exactly the bytes of its source. |
| `Write.RangesAreDisjoint` | src/write.rs:196-232 | Ranges of distinct keys never overlap. |
| `Write.RangesTile` | src/write.rs:196-232 | The ranges of the keys cover the payload with no gap. |
| `Write.RepeatsAccount` | src/write.rs:200-206 | Bytes laid out plus bytes of repeated keys are the bytes asked for. |
| `Write.PlannedBytes` | src/plan.rs:125-131 | The plan's byte count is the total length of its copy keys. |
| `Write.CopyOne` | src/write.rs:196-226 | One copy reuses the recorded position or appends; position, output and map keep describing the first-occurrence layout. |
| `Write.CopyActions` | src/write.rs:180-232 | The loop succeeds if and only if every key so far can be read and placed; holes come out with every field zero, kept entries unchanged, copies at their key's offset under the output's number. |
| `Write.FirstSeenMeaning` | src/write.rs:199-206 | The layout order holds exactly the copied keys, each once. |
| `Write.WritePartition` | src/write.rs:117-155 | One partition: reserved sectors, then blocks, then the form of the index; succeeds if and only if all its copies can be placed and its positions match. |
| `Write.WriteZeros` | src/write.rs:263-272 | Exactly that many zeros are appended. |
| `Write.WriteDataRegion` | src/write.rs:106-176 | Succeeds if and only if every planned copy can be read and placed and every delta partition has one position per block; the region is then payload, zeros to the boundary, and matching entries. |
| `Write.RegionIsUnique` | src/write.rs:106-176 | A plan over given sources has one data region: bytes and index entries leave nothing to choice. |
| `Output.CopyRange` | src/write.rs:344-366 | The chunked copy yields the byte range whole. |
| `Output.WritePartitionMetadata` | src/write.rs:305-334 | The list of a partition copied up to its `$INDEX`, then a fresh one that ends the list. |
| `Output.WriteDiskMetadata` | src/write.rs:298-334 | The list of a disk and those of its partitions, in order. |
| `Output.WriteMetadataRegion` | src/write.rs:289-338 | Every list of To with a fresh `$INDEX`, in order, and where the root list starts; with To among the sources it is refused only when the written indexes do not describe To's partitions. |
| `Output.PatchedClaims` | src/write.rs:403-438 | The patched header claims exactly the absorbed numbers. |
| `Output.PatchedFields` | src/write.rs:403-438 | The patched header field by field: To's image id, From's numbers, the absorbed numbers but its own ascending, the position, no split, the form, and "full" as type of a synthetic Full only. |
| `Output.PatchedDocument` | src/write.rs:380-400 | A document is patched if and only if re-encoding it gives its bytes and the restamp succeeds; header and restamped part change and nothing else. |
| `Output.WriteOutput` | src/write.rs:596-636 | The bytes are the four parts of a finished output; with a sound To among the sources it is refused only where no bytes would be one. |
| `Output.OutputIsUnique` | src/write.rs:596-636 | One To file, one plan, one set of sources: one output. |
| `Reread.PrintThenParse` | src/reader.rs:96-178 | The reader accepts a written output if and only if `$AUXDATA` is absent or ends its list, and then finds the patched document, the planned indexes, each in a fresh plain `$INDEX` whose header has the hash of its bytes, every other block of To with header and payload, a root list of `$JSON` and To's `$AUXDATA` where the writer says, and the footer right after it. |
| `Reread.HolesAreZeros` | src/write.rs:191-195 | Every planned hole is thirty zero bytes at its place in the `$INDEX` of the output, in either form. |
| `Reread.SizeIsAccounted` | src/plan.rs:156-158 | Written size is projected size minus the alignment saved by avoided duplicates minus the unused document allowance; at most projected whenever the document grows by at most 512 bytes. |
| `Merge.RangeIsPrefix` | src/plan.rs:180-207 | When a plan takes the newest members, every number of a member is absorbed if and only if the member is one of the newest so many, and what survives is the rest. |
| `Merge.FollowingTakesNewest` | src/plan.rs:180-207 | Increments that follow file numbers make every accepted plan take the newest members. |
| `Merge.WrittenIsMerged` | src/write.rs:596-636 | What the writer wrote parses into a file that is the merged file of the plan. |
| `Merge.MergedClaims` | src/write.rs:403-430 | A merged file claims exactly the absorbed numbers, has From's identity, and is full exactly for a synthetic Full. |
| `Merge.OwnersAfter` | src/set.rs:89-106 | After a merge, of any plan, an absorbed number belongs to the output and every other number keeps its owner. |
| `Runs.AfterIsSorted` | src/set.rs:87-87 | The list of what is left is the one the sort by file number gives: newer files, files the merge skipped, output, older files. |
| `Merge.WrittenContent` | src/write.rs:196-226 | Whatever was decided for an entry, the written entry stands for the same content. |
| `Preserve.SyntheticChain` | src/plan.rs:253-256 | A synthetic Full resolves, position by position, to the contents of the chain it replaces, also over a newer Differential base. |
| `Preserve.IncrementalPosition` | src/plan.rs:257-269 | Where no skipped file has a say, an incremental merge keeps the content of a position if and only if the absorbed files changed it or the older entry in use there is not moved or reads the same from the output. |
| `Preserve.PositionKeptIff` | src/set.rs:226-243 | The same for a position of a whole chain, under any plan: it asks this of the entry of a newer file, of an uncovered older entry, or that a skipped file's entry stands for what was resolved before. |
| `Preserve.LookupAbove` | src/set.rs:226-243 | What a chain resolves to at a position is what the newer files decide there, their full index or their last writer, and else what the older files resolve to. |
| `Preserve.MergePreservesImageIff` | src/set.rs:208-251 | For every chain, every accepted plan, newer files and partition: the same reserved sectors and the same blocks, with lengths and hashes, before and after, if and only if the resolved array keeps its length and every position and the reserved sectors meet their condition. |
| `Preserve.NewestMergePreservesImageIff` | src/set.rs:208-251 | Where the plan takes the newest members: if and only if every entry that stays in use, in a newer file or in an older one the output does not cover, and that names an absorbed number, finds the same bytes at its offset in the output. |
| `Preserve.MergePreservesImage` | src/set.rs:208-251 | Its corollary: where neither the newer files nor, for an incremental merge, the older ones name an absorbed number, every such merge keeps every partition. |
| `Readback.CheckOutput` | src/write.rs:644-707 | Accepts if and only if the file parses, frames, claims the planned number and form, and every entry is a hole, names no absorbed file but itself, and lies in the data region if its own. |
| `Readback.CheckDisks` | src/write.rs:661-705 | Accepts if and only if every entry of every partition passes. |
| `Readback.MergedFilePasses` | src/write.rs:644-707 | Every merged file passes: no entry names a file about to be deleted. |
| `Readback.LayoutAgrees` | src/reader.rs:204-227 | Rounding up the reader's end of own data gives exactly the position the header records. |
| `Verify.VerifyFile` | src/verify.rs:171-241 | Succeeds if and only if the file parses, every own block, at its place, decodes to its hash under the disk and partition numbers the document records there, and there is at least one; the report counts own blocks, their plaintext, and blocks elsewhere. |
| `Verify.VerifiesIff` | src/verify.rs:171-241 | The pass over lists of checks is this statement about the places of the file. |
| `Verify.CheckAll` | src/verify.rs:183-214 | One list of entries: succeeds if and only if every own entry decodes to its hash, and adds exactly those to the report. |
| `Verify.VerifyRow` | src/verify.rs:181-233 | One disk: the same over its partitions, whose numbers must be recorded. |
| `VerifyMerged.HashesSurvive` | src/verify.rs:171-241 | If every resolved block decodes to its hash under its disk, partition and index, the output verifies if and only if it holds a copied block, with `blocks` and `elsewhere` the plan's counts. |
| `Runs.StepKeepsWellFormed` | src/set.rs:87-110 | A merge anywhere in a well-formed set leaves a well-formed set: order, disjoint claims, shape, parsed files of one set. |
| `Runs.StepKeepsOrder` | src/set.rs:87-110 | It also keeps increments that follow file numbers, and the absence of references to newer files. |
| `Runs.FollowingIsAccepted` | src/plan.rs:180-207 | Where increments follow file numbers, any plan as of a file, made and written, is a step of the theorems. |
| `Runs.NewerPointSurvivesIff` | src/scan.rs:70-98 | Resolving as of any one file at or above To restores a partition the same before and after the merge if and only if the moved entries in use as of that file read the same. |
| `Runs.EveryNewerPointSurvives` | src/scan.rs:70-98 | Without references to newer files, and with no file above To naming an absorbed number, every such point restores as before. |
| `Runs.StepKeepsImageIff` | src/set.rs:208-251 | One accepted merge keeps the whole image as of the newest file if and only if every moved entry that stays in use reads the same, in every partition. |
| `Runs.MergeKeepsImageIff` | src/set.rs:208-251 | For any newer files, any chain and any accepted plan: the whole image is kept if and only if every partition meets its condition and the newest file keeps the shape. |
| `Runs.BackwardStepKeepsImageIff` | src/set.rs:208-251 | Without references to newer files, it does if and only if the entries the newer files decide do. |
| `Runs.RunsAreSafe` | src/set.rs:208-251 | Any finite run of merges that each keep what stays in use, deleting what they absorb, keeps the set well-formed and the image what it was. |
| `Runs.BackwardRunsAreSafe` | src/set.rs:208-251 | From a set without references to newer files, it is enough that each merge leaves the newer files their meaning; the set stays such a set. |
| `Complete.CompleteAfterIff` | src/set.rs:142-183 | After any accepted merge of a complete set, the completeness check accepts if and only if the merge leaves no gap and an output that becomes the base keeps claimed numbers only: conditions on the plan, the resolved chain and the claims. For every incremental merge they hold. |
| `Complete.CausalAfterIff` | src/set.rs:142-183 | Where every file names claimed numbers only, that stays so, and only a gap can make the set incomplete. |
| `Complete.CompleteRunsAreSafe` | src/set.rs:142-183 | Runs of merges that meet this and keep what stays in use keep the set complete, well-formed and restoring the same image. |
| `Hazards.GapBreaksCompleteness` | src/set.rs:142-183 | A concrete well-formed, complete set of files with a retention gap, where an accepted and written merge below the newest file, one that keeps the image, leaves a set the check refuses. |
| `Hazards.DifferentialAboveChangesImage` | src/cli.rs:384-402 | A concrete well-formed, complete set with a Differential above To, whose restored bytes change by an accepted and written merge, because an absorbed block moved: the exact condition fails. |
| `Encoding.LibrariesRoundTrip` | src/json.rs:30-43 | An encoding of documents that decoding undoes, for every document: the assumption of the theorems can be met. |
| `Smallest.SmallIsWritten` | src/write.rs:596-636 | What the writer makes of a smallest To file, byte by byte, is an output in the sense of every theorem. |
| `Hazards.AuxiliaryFirstBreaksOutput` | src/write.rs:620-627 | A concrete accepted merge of files the parser accepts, whose written output it refuses: `$AUXDATA` came first and does not end the list. |
| `LockName.RunSucceeds` | src/cli.rs:414-466 | A concrete run over a smooth disk succeeds under every output name. |
| `LockName.LockNameLosesOutput` | src/cli.rs:414-466 | Under the name of the lock that run succeeds too, absorbs both files of the set, and its output is the lock it removes. |
| `Smallest.FileParses` | src/reader.rs:96-178 | A smallest file, laid out byte by byte, is parsed into exactly its document, lists and index. |
| `Hazards.PlainMergeExists` | src/plan.rs:210-297 | A Full and an incremental, down to their bytes, that meet every hypothesis of the theorems on plain sets, with an output the writer makes of the synthetic Full. |
| `NumberHazards.IncrementalMergeExists` | src/plan.rs:257-269 | The same for an incremental merge of a set of three. |
| `NumberHazards.OlderEntryChangesImage` | src/set.rs:142-183 | A concrete well-formed, complete set whose Full names a number of the incremental above it; an accepted and written incremental merge at the newest file, with nothing above it, changes the restored bytes. |
| `NumberHazards.LooseEntryBreaksCompleteness` | src/set.rs:142-183 | A concrete complete set with a delta that names a number nobody claims; an accepted and written synthetic Full at the newest file keeps the image and leaves a set the check refuses. |
| `OrderHazards.SkippedFileChangesImage` | src/plan.rs:180-207 | A concrete well-formed, complete set whose increments do not follow its file numbers; an accepted and written merge skips the file in the middle, and what is left, by file number, restores something else. |
| `Plain.AboveNamesNone` | src/plan.rs:215-224 | In a plain set (a Full and incrementals that name only their own blocks) no file above To names an absorbed number. |
| `Plain.AcceptedStepIsSafe` | src/plan.rs:210-297 | Any accepted merge of a plain complete set, at any place, keeps it plain, complete, well-formed, and restoring the same image. |
| `Plain.PlainRunsAreSafe` | src/set.rs:142-251 | So does every finite run of them, with no condition beyond the program's own rules. |
| `Discovery.DiscoveryFindsSuffix` | src/set.rs:60-87 | Discovery as of a file, over a directory that holds the set's files in any order among others, resolves exactly the files from that one down, where their increments tell them from the newer ones. |
| `Outcome.NextRunFinds` | src/set.rs:60-111 | After a run that succeeded and deleted, a scan of the disk as of the newest file finds exactly newer files, output and survivors; that set is well-formed, restores the old image if and only if what stays in use keeps its meaning, and, if the old one was complete, is complete if and only if the exact condition holds. |
| `Discovery.OutputBesideSourceIsRefused` | src/set.rs:93-104 | While an output and a file it absorbed are both present, claims overlap, so the set is refused rather than guessed. |
| `Commit.TakeLock` | src/commit.rs:37-67 | Succeeds if and only if the lock file is absent and can be created and written; where only the note fails, the file is left behind. |
| `Commit.Lock.Drop` | src/commit.rs:84-90 | Removes the lock file and touches nothing else. |
| `Commit.CreateTemp` | src/commit.rs:347-365 | A fresh empty file under the temporary name, or no change. |
| `Commit.TempOutput.Reserve` | src/commit.rs:399-405 | Extends the file with zeros where supported; nothing else changes. |
| `Commit.TempOutput.Write` | src/commit.rs:368-372 | Writes over the reservation from the cursor on; every state on the way differs only in the temporary file. |
| `Commit.TempOutput.RenameIntoPlace` | src/commit.rs:473-520 | For every sequence of replies, within four attempts: on a remote or an unknown file system success is reported if and only if the file has moved; on a local one if and only if a rename said so; every state is the old one or the moved one. |
| `Commit.OneMoveDecides` | src/commit.rs:473-520 | At most one attempt moves the file: any attempt that is reached and moves it is the same one, and it alone settles what is reported. |
| `Commit.Stuck` | src/commit.rs:496-509 | A failed attempt that is not retried is the last one: nothing moved. |
| `Commit.TempOutput.Commit` | src/commit.rs:416-470 | Succeeds if and only if the file is long enough, can be cut back, flushes and lands; the destination then holds exactly the written bytes and the temporary name is gone. |
| `Commit.TempOutput.Drop` | src/commit.rs:542-550 | Removes the temporary file if and only if it was not committed. |
| `Commit.ClearLeftovers` | src/commit.rs:100-122 | Removes exactly the lock and the files with the temporary prefix, nothing else, and reports what it removed; fails only on one that cannot be removed. |
| `Cli.RedundantPaths` | src/cli.rs:531-541 | Exactly the paths of owners of absorbed numbers, each once, in the order of their lowest such number. |
| `Cli.RedundantAreAbsorbed` | src/cli.rs:531-541 | Those are exactly the paths of the members whose own number the merge absorbed. |
| `Cli.FoundBeforeIsStrict` | src/cli.rs:531-541 | Their order is strict: no two paths come before each other. |
| `Cli.Fill` | src/cli.rs:416-431 | Succeeds if and only if permissions were set, there is a finished output and it fits; every state on the way differs only in the temporary file. |
| `Cli.IsSourcePath` | src/cli.rs:360-367 | Whether a member sits at the output path. |
| `Cli.CommitAndDrop` | src/cli.rs:432-432 | The commit of a filled file, and its removal where the commit failed: the output is in place whole, or nothing but the temporary file changed; after a failure over a network the output's name is as free as before. |
| `Cli.WriteAndCommit` | src/cli.rs:414-432 | Succeeds if and only if the output exists and the disk goes along; every state is the one before, up to the temporary file and the lock, or has the whole output in place. |
| `Cli.ReadBackAndDelete` | src/cli.rs:446-466 | A source is removed only after the output passed the read-back and, where asked, the verification; exactly the absorbed files go. Any change or touch of the disk implies that the output is one the read-back and the requested verification accept. |
| `Cli.DeleteAll` | src/cli.rs:462-466 | Succeeds if and only if every path is there and can be removed; no other file changes, and in every state on the way the removed paths are the first so many of the list. |
| `Cli.WriteLocked` | src/cli.rs:416-466 | The run under the lock, with the exact condition for success. |
| `Cli.WriteMerge` | src/cli.rs:348-466 | For every behaviour of the disk: every state a kill could leave is safe (sources whole, or an output the read-back and the requested verification accept; and the deleted sources the first in the order of their lowest absorbed number), success holds if and only if a stated condition does, and then only output and untouched files remain; all unless the output is named like the lock, in which case a successful run removes its own output. |
| `Cli.ReadBackIsMerged` | src/cli.rs:446-448 | An output that passed the read-back is the merged file of the plan. |
| `Cli.ReadBackAccepts` | src/write.rs:644-707 | A finished output passes the read-back if and only if To's `$AUXDATA`, if any, ends its list. |
| `Cli.EveryStateRestoresIff` | src/cli.rs:348-466 | In every safe state the disk holds the newer files and the set as it was or, once a source is gone, the newer files, the parsed output and the survivors; they restore the image from before the run, whatever the plan takes, if and only if the sources are there or the merge meets the condition of `Runs.MergeKeepsImageIff`. |
| `Cli.EveryStateRestores` | src/cli.rs:348-466 | Where the plan takes the newest files and no newer or uncovered older file names an absorbed number, the files so named restore the image in every safe state. |

## Left out

- The text of the `$JSON` document, its canonical form and field readers: the document is a record with an abstract
  codec that round-trips. The comparison with the canonical form before a patch is kept.
- Patches of the document that no merge decision reads (`file_history`, disk sizes, auxiliary data, names): one
  abstract function, which may fail, of what the program reads for them: the carried-through parts of To's and the
  base's documents, the output's name and number, the absorbed numbers and the form.
- Decryption, decompression and hashing: uninterpreted functions.
- Power loss and durability: a crash is the kill of the process, and a flush is a reply that may be a failure.
- Partial listings and skipped files in a directory scan: discovery starts from the parsed candidates.
- Opening a file without its index, split continuations beyond being skipped, and tree scans.
- Symbolic links and relative paths: paths are compared as they are, so `is_same_file` is equality of paths.
- Mount classification, free space and the FAT32 limit: one reply that says whether the output fits.
- Command-line parsing, reports, `inspect` and `resolve`.
- Sums of file offsets above 64 bits: positions of a list are natural numbers, so an overflow that the program
  would hit while adding two offsets of a file larger than any disk is not modelled. Offsets written to the file
  keep their width and the refusals that go with it.
- Handles are read as the bytes the file had when the set was discovered; a source that changes while it is copied
  is outside the model.
- Runs.StepKeepsWellFormed: for plans that take the newest files. After a plan that skips a file the newest one can be
  a split part, whose shape nothing compares; only the order is proved of that case (`Runs.AfterIsSorted`).
- Runs.RunsAreSafe: asks each step to keep what stays in use, the exact condition of `Runs.StepKeepsImageIff`; two
  steps that each change the image and together restore it are outside it.
- Commit.ClearLeftovers: takes the listing of the directory as given.
