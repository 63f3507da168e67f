# The F3 file format: writer, reader and shared dictionaries

A model of the columnar file writer and reader of F3 and proofs about it. The model follows
the program's own structure: encoders that buffer arrays and emit column chunks, a file
write state that appends bytes and keeps the metadata, dictionaries that columns share, and
a reader that finds everything again from the end of the file.

What is proved, in the order of its weight:

- **Shared dictionaries keep the meaning of columns, except where merging moves values.** A
  run of the writer with shared dictionaries (`SharedWriters`, `SharedWholeFiles`) submits,
  merges, extends, splits, stores, reassembles and looks up. Reading its file succeeds exactly
  when read-ahead suffices, there is a column, and no dictionary that holds values was written
  to a compressed file; it then returns the batches written exactly when finishing was safe
  (`SharedMeanings.SharedFileReadsIff`). Without sharing between columns it always is. With it,
  it is safe exactly when every dictionary emitted before `finish` that the greedy matching
  pairs already begins with what it shares with its partner: a condition on the state before
  the merge. Where it is not, the file reads as batches of the same shape with every such value
  replaced by the one moved into its place (`MisnamedFileReads`). A run below one dictionary
  scope and one row group is safe (`ShortSharedFileReads`); two row groups of one column are
  not (`TwoGroupsMisnamed`, `TwoGroupsMisread`): their file reads without an error and gives
  other values. `SharedSamples` writes one file of each kind with concrete codecs
  (`PlainCodecs`), so every hypothesis of these theorems is met by tables with rows.
- **Nested columns, whole files, projections.** Shredding and reassembly give back every row
  exactly when no struct is empty and every list starts at offset 0; on top of that
  `WholeFiles.WrittenFileReads` reads back any file written in the default mode without unit
  lengths of its columns' own.
- **Custom unit lengths.** A file some of whose columns are cut into units of their own lengths
  reads exactly when, in every batch, all columns are cut alike
  (`CustomFiles.CustomFileReads`); a file with one such column beside one without is unreadable
  as soon as a batch is not exactly one unit (`MixedLengthsFail`). What comes back are the rows
  of whole units, all rows exactly when the length divides every batch (`CustomFileKeeps`).
- **Point lookup refines the scan** (`RowReads`): any row, across every boundary, and any
  selection.
- **Sketches.** Truncating to the K smallest hashes does not change a K-step walk, so the
  similarity that drives the merge is that of the whole dictionaries.
- **Keyword arguments and framed units** round trip, with the exact condition where there is
  one.

Values are of an arbitrary type, with an injective key where the program hashes values. The
unit codec, the flatbuffer codecs, the block compressor and the checksum are parameters; a
theorem that needs a law about them requires it by name (`Lossless`, `NonEmpty`,
`LosslessCompressor`, all in `Codecs`, and `RefusesRaw` in `DictCaches`).
`PlainCodecs.PlainFileIsLawful` and `PlainUnitsAreLawful` show that the laws of `Codecs` can
be met. A file is a sequence of bytes. A panic and an error return are both a failed `Result`.

Where the code and what is written about it disagree, the model follows the code:

- A comment in `write_batch` (fff-poc/src/writer.rs:254-256) asks for batches that are a
  multiple of the custom unit length; the code accepts any batch that is not shorter and
  drops the rows behind the last whole unit. It also accepts unit lengths for some columns
  only, and then writes files that its reader cannot read unless such columns happen to be cut
  like the others.
- The stored dictionaries carry the file's compression type, but their bytes are never
  compressed (fff-poc/src/dict/shared_dictionary_context.rs:208-231): with a decompressor that
  refuses raw bytes (`RefusesRaw`), a file with both compression and a dictionary that holds
  values cannot be opened.
- `read_file` with row indexes looks up only the first selected row of each row group
  (fff-poc/src/reader/mod.rs:223).

## Model

| member | source | states |
|---|---|---|
| `TypedDicts.TypedDict.Extend` | fff-poc/src/dict.rs:543-561 | new values are appended once, in order of first appearance; the slots returned name every value of the array in the grown dictionary and nulls as nulls; the key map stays the inverse of the vector |
| `TypedDicts.TypedDict.SubmitValues` | fff-poc/src/dict.rs:562-571 | the same growth without slots |
| `TypedDicts.TypedDict.MergeWith` | fff-poc/src/dict.rs:585-605 | returns the number of common values; without overlap neither side changes; otherwise both become the merged orders, with both key maps rebuilt as the inverses of their vectors (`Valid`) |
| `DictValues.MergeLayout` | fff-poc/src/dict.rs:572-605 | on an overlap both merged orders are duplicate-free permutations of the old ones that begin with exactly the common values, in the other's old order, and keep their own old order behind |
| `DictValues.MergeKeepsIndicesIff` | fff-poc/src/dict.rs:585-605 | a merge leaves a dictionary as it is exactly when the common values are a prefix of it already |
| `BottomKSketches.BottomKSketch.AddHash` | fff-poc/src/dict/bottom_k_sketch.rs:33-44 | every heap holds, as a multiset, the K smallest mapped hashes of all that was added, whatever the order |
| `BottomKSketches.BottomKSketch.EstimateJaccard` | fff-poc/src/dict/bottom_k_sketch.rs:57-91 | the loop over two truncated windows returns the estimate of the untruncated hash multisets |
| `BottomKSketches.WalkIgnoresTruncation` | fff-poc/src/dict/bottom_k_sketch.rs:57-91 | cutting either input to at least k elements does not change a walk of k steps |
| `BottomKSketches.WalkMeasuresUnion` | fff-poc/src/dict/bottom_k_sketch.rs:57-91 | the walk collects min(k, size of the multiset union) elements and counts at most the common ones, all of them if the union fits |
| `BottomKSketches.SmallUnionIsExact` | fff-poc/src/dict/bottom_k_sketch.rs:57-91 | with a union of at most K elements both counts are those of the exact multiset Jaccard index |
| `BottomKSketches.EstimateProperties` | fff-poc/src/dict/bottom_k_sketch.rs:33-91 | the estimate is symmetric, independent of insertion order, a number exactly when one side is non-empty (so the edge sort's unwrap is safe), and then in [0, 1] |
| `SharedContexts.SharedDictionaryContext.ExtendAndGetIndex` | fff-poc/src/dict/shared_dictionary_context.rs:84-92 | one dictionary grows by the array's new values, the others stay, and the slots name the array |
| `SharedContexts.SharedDictionaryContext.MergeDicts` | fff-poc/src/dict/shared_dictionary_context.rs:93-166 | whatever order the types are visited in, the result is the greedy matching by similarity of the dictionaries before the merge, and every dictionary is the merged one of its pair or untouched |
| `DictMatchings.GreedyUnique` | fff-poc/src/dict/shared_dictionary_context.rs:93-166 | there is only one greedy matching, so MergeDicts leaves nothing to the order of a hash map |
| `DictMatchings.MergedPair` | fff-poc/src/dict/shared_dictionary_context.rs:116-163 | a matched dictionary is a duplicate-free permutation of what it was and shares exactly its first n entries, in the same order, with its one partner |
| `SharedContexts.SharedDictionaryContext.FinishAndFlush` | fff-poc/src/dict/shared_dictionary_context.rs:173-263 | hands out exactly the pieces of the split: of each pair the common part once, at the smaller number, and every rest that is not empty; peers are those of the matching |
| `DictSplits.SplitReassembles` | fff-poc/src/writer.rs:399-422 | every position list has one or two entries, and gathering the chunks it names gives the dictionary, on either side of a pair |
| `DictSplits.SplitConserves` | fff-poc/src/dict/shared_dictionary_context.rs:190-262 | stored entries plus one copy of every common prefix are the entries of all dictionaries |
| `DictStores.DictionariesLoadIff` | fff-poc/src/dict/shared_dictionary_cache.rs:23-119 | loading the dictionary table succeeds exactly when each dictionary is empty or the file is not compressed, and then gives every dictionary back |
| `DictCaches.DictChunkReadsIff` | fff-poc/src/dict/shared_dictionary_cache.rs:56-112 | a stored piece reads back exactly when it is empty or its compression tag does no harm |
| `DictCaches.DictChunkRefused` | fff-poc/src/dict/shared_dictionary_context.rs:208-231 | under a tag whose decompressor refuses raw bytes, a piece that holds values cannot be read |
| `IndexArrays.NarrowedLookup` | fff-poc/src/encoder/physical.rs:328-353 | indices narrowed by the dictionary's length and looked up in the reassembled dictionary, placeholder included, give the array back |
| `SharedColumns.SharedDictColEncoder.EncodeDictScope` | fff-poc/src/encoder/physical.rs:531-604 | everything buffered becomes index chunks of one dictionary, the one submitted before or a new one; each array has one unit, which names its values; no other dictionary changes |
| `SharedColumns.SharedDictColEncoder.Encode` | fff-poc/src/encoder/physical.rs:607-631 | below the dictionary scope the array is only buffered and no dictionary changes; at the scope all buffered arrays are encoded |
| `SharedColumns.SharedDictColEncoder.Finish` | fff-poc/src/encoder/physical.rs:637-647 | encodes what is buffered, or nothing |
| `SharedColumns.SharedDictColEncoder.SubmitDict` | fff-poc/src/encoder/physical.rs:649-665 | submits the buffered values to the column's dictionary, creating it if needed; without any buffered array and without a dictionary it panics |
| `SharedWriters.SharedFileWriter.WriteBatch` | fff-poc/src/writer.rs:249-292 | dictionaries, buffered arrays, closed row groups and the open one are exactly those of one step of the run (`SharedScopes.Step`); in particular no dictionary exists before a scope or a row group is full |
| `SharedWriters.SharedFileWriter.Finish` | fff-poc/src/writer.rs:312-503 | fails exactly when columns share dictionaries and one has nothing left to submit; otherwise the bytes are those of a finished file whose row groups, dictionaries, table and matching belong to the run so far |
| `SharedScopes.ShortRunIsQuiet` | fff-poc/src/encoder/physical.rs:607-631 | with fewer rows than a dictionary scope and a row group, no row group is closed and no dictionary exists yet |
| `SharedMeanings.IndicesNameIff` | fff-poc/src/writer.rs:312-345 | every index in the file names its value in the dictionaries stored exactly when columns do not share, or every early dictionary that the greedy matching of the values submitted pairs begins with what it shares |
| `SharedFiles.SharedFileReads` | fff-poc/src/decoder/physical.rs:419-495 | with indices that name the right values, reading gives the batches written, one for one and in order; it succeeds exactly when read-ahead suffices, there is a column, and no dictionary that holds values was written to a compressed file. Sizes must fit their 32-bit fields, and a decompressor, where one is used, must refuse raw bytes |
| `SharedFiles.NamedStaySmall` | fff-poc/src/encoder/physical.rs:555-604 | a chunk of indices without its last unit is within the target size, so 32-bit sizes follow from a bound on single index arrays whose values fit their width |
| `SharedFiles.SmallFileFits` | fff-poc/src/writer.rs:60-101 | in a file of fewer than 2^32 bytes every 32-bit size that the theorems about reading ask for fits |
| `SharedMeanings.SharedFileReadsIff` | fff-poc/src/writer.rs:312-503 | reading the file of any run succeeds exactly under the three conditions above (read-ahead depends on the size of the finished metadata); what it returns are the batches written exactly when columns do not share or finishing was safe, which is known from the state before `finish` |
| `SharedMeanings.MisnamedFileReads` | fff-poc/src/writer.rs:312-339 | when finishing was not safe, the file reads under the same conditions, and gives as many batches of as many rows with nulls in the same places, each value replaced by the one that the merge moved into its place, and at least one of them different |
| `SharedWholeFiles.WriteSharedFile` | fff-poc/src/writer.rs:186-503 | opening a writer, writing any batches and finishing produces the file of the run of those batches, or fails exactly when sharing columns have nothing left to submit |
| `SharedWholeFiles.ShortSharedFileReads` | fff-poc/src/writer.rs:312-503 | a run below one dictionary scope and one row group reads back as written exactly under the three conditions of reading, sharing or not |
| `SharedWholeFiles.TwoGroupsUnsafe` | fff-poc/src/writer.rs:285-290 | one column, the values 1, 2, 1 in the first row group and 2, 1 in the second, with sharing: the greedy matching pairs the two dictionaries and finishing is not safe |
| `SharedWholeFiles.TwoGroupsMisnamed` | fff-poc/src/writer.rs:285-339 | whatever the sketches, hashes and codecs, an index of that run's file names another value than the one it was written for |
| `SharedWholeFiles.TwoGroupsMisread` | fff-poc/src/writer.rs:285-339 | the file of that run reads without an error exactly when read-ahead suffices and it is not compressed, and what it gives is never what was written |
| `SharedSamples.WriteOneGroup` | fff-poc/src/writer.rs:186-503 | writes a three-row table whose run meets every hypothesis of the theorems above under some lawful codecs, and its file reads back; so does the file written with the plain codecs if it has fewer than 2^32 bytes |
| `SharedSamples.WriteTwoGroups` | fff-poc/src/writer.rs:285-339 | writes the two row groups of `TwoGroupsMisread`, whose run meets every hypothesis under some lawful codecs, and its file reads without an error and gives other values; so does the file written with the plain codecs if it has fewer than 2^32 bytes |
| `Shredding.SameNumbering` | fff-poc/src/encoder/logical.rs:315-438 | encoder and decoder trees number the same nodes alike, in pre-order and without gaps |
| `NestedColumns.NestedRoundTrip` | fff-poc/src/decoder/logical.rs:371-417 | decoding the shredded columns of any arrays returns their rows unit by unit, exactly when no struct is empty and every list at every level starts at offset 0 |
| `NestedColumns.SlicedListIsUnreadable` | fff-poc/src/encoder/logical.rs:441-463 | a list array cut from a longer one, whose offsets start at 1, is refused by the decoder |
| `ColumnEncoders.EncoderDictColEncoder.Encode` | fff-poc/src/encoder/physical.rs:175-225 | no unit is lost or reordered; a chunk is emitted exactly when the target size is exceeded, and did not exceed it before its last unit |
| `ColumnEncoders.ColumnEncoders.EncodeNode` | fff-poc/src/encoder/logical.rs:122-144 | every physical column of a node takes exactly one unit per call, holding its part of the shredded array; all other columns are untouched |
| `CustomUnits.EncodePieces` | fff-poc/src/writer.rs:257-273 | a column with a unit length of its own fails exactly when the length is 0 or the batch is shorter; otherwise each of its physical columns takes one unit per whole slice, in order |
| `CustomUnits.CustomUnitsRoundTrip` | fff-poc/src/writer.rs:257-273 | those units decode exactly when no struct is empty and no list holds an item before its last unit starts; they give the rows of the whole units, all rows exactly when the length divides their number |
| `FileWriteStates.FileWriteState.FlushChunkAndGetMetadata` | fff-poc/src/writer.rs:60-101 | the bytes appended are the chunk's units in order, the metadata names exactly them, and the running checksum has been fed everything written |
| `FileWriteStates.FileWriteState.FinishRowGroup` | fff-poc/src/writer.rs:103-116 | closed row groups lie end to end in the bytes written so far, each holding exactly its own chunks, and the row counters agree |
| `Tilings.BytesHeldOnce` | fff-poc/src/writer.rs:60-116 | in a valid state between two row groups, every byte written lies in exactly one chunk that the row-group table names, of one row group and one column |
| `FileWriteStates.FileWriteState.WriteMetadata` | fff-poc/src/writer.rs:366-503 | the file ends in column metadata, footer and postscript, each located by the next |
| `FileWriters.FileWriter.WriteBatch` | fff-poc/src/writer.rs:249-292 | fails exactly when a column with a unit length of its own has length 0 or the batch is shorter; otherwise the batch joins the open row group, which is closed exactly when its counter reaches the limit, and every physical column holds the units of exactly the batches so far, whole or cut (`Valid`) |
| `FileWriters.FileWriter.Finish` | fff-poc/src/writer.rs:340-503 | the bytes are those of a finished file whose row groups hold exactly the batches written, whole or cut |
| `WholeFiles.WriteFile` | fff-poc/src/writer.rs:186-503 | opening a writer, writing any batches and finishing yields such a file for exactly those batches, or fails exactly when a column cannot cut a batch; below 2^32 bytes its postscript reads back and it passes full verification |
| `WholeFiles.ChunksStaySmall` | fff-poc/src/encoder/physical.rs:193-224 | a chunk is at most the target size and its last unit, so its 32-bit size follows from a bound on single units |
| `Chunks.ChunkReadsBackIff` | fff-poc/src/decoder/physical.rs:55-76 | splitting a chunk at the sizes of its metadata recovers every unit exactly when the chunk's size fits 32 bits |
| `FileOpen.FinishedFileVerifies` | fff-poc/src/reader/builder.rs:85-107 | every finished file passes full verification, and its postscript reads back |
| `FileOpen.OpenRecovers` | fff-poc/src/reader/builder.rs:109-300 | from the postscript alone the reader finds footer and column metadata as written, by bulk slice, one by one or read-ahead, the last exactly when the metadata fits; projected position k gets column k of the projection |
| `FileReads.FinishedReads` | fff-poc/src/reader/mod.rs:195-261 | reading a finished file succeeds exactly when read-ahead suffices and the batches are readable, and returns their rows, batch for batch, in order |
| `WholeFiles.WrittenFileReads` | fff-poc/src/reader/mod.rs:232-258 | reading a file written in the default dictionary mode without custom unit lengths returns the batches, one per write call, whatever chunk flushes and row-group closes occurred, exactly when read-ahead suffices, there is a column, no struct is empty and every list starts at offset 0 |
| `CustomFiles.CustomFileReads` | fff-poc/src/writer.rs:257-273 | reading a file whose columns may have unit lengths of their own succeeds exactly when read-ahead suffices, there is a column, in every batch all columns have units of the same length, no struct is empty and every list of every unit starts at offset 0; it gives the units as batches, in order |
| `CustomFiles.MixedLengthsFail` | fff-poc/src/reader/mod.rs:238-258 | a file with one column cut and another not cannot be read if some batch is not exactly one unit long |
| `CustomFiles.CustomFileKeeps` | fff-poc/src/writer.rs:254-273 | of each column come back the rows of the whole units of every batch, all rows exactly when the unit length divides the length of every batch |
| `WholeFiles.WrittenFileProjects` | fff-poc/src/reader/mod.rs:232-261 | projecting a flat file puts column `indices[k]` at position k, repetitions and any order included |
| `PointLookups.ChunkDecoder.DecodeRowAt` | fff-poc/src/decoder/physical.rs:78-134 | the loop with its counters computes the recursive specification `RowsAt` and leaves its cursor |
| `PointLookups.RowsAtIff` | fff-poc/src/decoder/physical.rs:78-134 | a range of rows comes back whole exactly when it stays in the unit of its first row; beyond it the subtraction underflows, or the range is cut short in the last unit |
| `PointLookups.ColumnLookup` | fff-poc/src/decoder/logical.rs:108-164 | a range inside one unit is that range of the whole column, wherever chunks and units end |
| `RowLookups.ProcessSelection` | fff-poc/src/reader/mod.rs:447-513 | the sorted selection is dealt out to row groups, relative to each |
| `RowLookups.SelectionConserves` | fff-poc/src/reader/mod.rs:466-513 | no selected row below the total is lost, duplicated or moved; those beyond it are dropped |
| `RowReads.PointLookup` | fff-poc/src/reader/mod.rs:195-261 | any one row of a flat file comes back as exactly that row of the table in the projected columns; rows beyond the total give nothing |
| `RowReads.LookupRefinesScan` | fff-poc/src/reader/mod.rs:195-261 | that row is the one the concatenated full scan has in that place |
| `RowReads.SelectionAnswers` | fff-poc/src/reader/mod.rs:215-261 | any selection gives one batch per row group with a selected row, holding the smallest of them |
| `RowLookups.NothingDroppedIff` | fff-poc/src/reader/mod.rs:223 | no selected row is dropped exactly when all exist and no two share a row group |
| `Kwargs.KwargsSerialize` | fff-ude/src/kwargs.rs:11-43 | the loops write count, key lengths, word lengths and then each key with its word |
| `Kwargs.KwargsDeserialize` | fff-ude/src/kwargs.rs:45-88 | the loop over offsets computes the entry-by-entry specification, with every slice in bounds or a panic |
| `Kwargs.KwargsRoundTrip` | fff-ude/src/kwargs.rs:11-88 | what was serialised comes back, every key with the last word it was given, if the count and all lengths fit a signed 32-bit word; if the count does and the lengths fit an unsigned one, only then; and for distinct keys only then without any bound, whatever the casts drop |
| `EncUnits.IntoFlat` | fff-encoding/src/enc_unit.rs:41-63 | buffers and sizes of all nodes that have any, in pre-order, and the tree of encodings |
| `EncUnits.Serialize` | fff-encoding/src/enc_unit.rs:133-161 | header, padding, the data of all nodes, padding; the total is a multiple of 4 |
| `EncUnits.TryDeserialize` | fff-encoding/src/enc_unit.rs:163-190 | the loop of `split_to` calls computes the recursive specification |
| `EncUnits.FlatRoundTrip` | fff-encoding/src/enc_unit.rs:133-190 | parsing a serialised unit, whatever follows it, gives the same tree and the bytes of each node in pre-order |

## Left out

- Local dictionaries (`DictColEncoder`, `DictColDecoder`, fff-poc/src/encoder/physical.rs:356-497): the decoder requires 64-bit indices and the encoder narrows them, so no round trip holds.
- `GLBestEncoder` (fff-poc/src/encoder/physical.rs:668-960): its choice is by random samples and floating-point estimates.
- The list-struct encoder and the offset push-down decoders (fff-poc/src/decoder/logical.rs:225-365): experiments behind a feature, with unfinished branches.
- The codecs, Arrow, the Wasm runtime, foreign functions and input/output: parameters, or byte sequences.
- Nested columns with shared dictionaries: the model of shared dictionaries covers flat tables. A nested column forwards each call to the columns beneath it (fff-poc/src/encoder/logical.rs:122-168), but the validity of a struct goes through the same dictionaries (fff-poc/src/encoder/logical.rs:418-424), which would then hold values of several types.
- EstimateJaccard: floating-point numbers are real numbers with a not-a-number; rounding of the averaged ratio is not modelled, and a tie between rounded similarities can then be ordered differently.
- PointLookup: flat tables only, as the program's list and struct decoders do not support single rows; files without custom unit lengths only, as rows that such lengths drop are still counted by the row counters that lookups rely on.
- WrittenFileReads: files with custom unit lengths are in CustomFileReads, those with shared dictionaries in SharedFileReadsIff.
- WriteBatch: what a writer holds after a batch that it refused half-way, which the program can still go on to use.
- KwargsRoundTrip: with repeated keys and lengths of 2^32 or more, bytes that the casts misplace can by chance give the right words; nothing is said about those.
- WrittenFileProjects: files without custom unit lengths only. Field names of projected batches, which the program takes from the first fields of the schema (fff-poc/src/reader/mod.rs:250), are not modelled.
- NarrowedLookup: the type of the one-entry placeholder dictionary of an all-null column.
- FinishAndFlush: dictionary numbers are unbounded; the casts of dictionary numbers and chunk ids to 32 bits are only in the requirement that fewer than 2^32 pieces are stored.
- FinishedFileVerifies: the schema checksum in the postscript is written but not compared by the reader; full verification covers the data checksum.
- TryDeserialize: the cast of the size words to a slice of 32-bit words fails on memory that is not aligned; addresses are not part of the model.
- Row and byte counters of 64 bits do not wrap around; the 32-bit ones do.
- Per-column encoding counters and memory sizes, which nothing else depends on.
