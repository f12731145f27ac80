# falcon_mdf: a verified model

falcon_mdf reads and writes ASAM MDF 4 measurement files. This project models its byte-level code in Dafny and proves
what that code is for.

- **Record stream** (`WriterModel`, `Streams`, `Float64`, `RecordStream`, `Demux`, `Interleaving`). The writer encodes each
  sample of a group as a record and, when several groups share a data group, sorts all records by (time, group,
  sample) and writes them tagged with a record ID. The reader walks that stream once and copies one group's records
  out. Reading back gives, byte for byte, what the writer would write for that group alone.
- **Streaming** (`Streaming`, `StreamingRefines`, `StreamingLosses`, `Payloads`, `StreamedPayloads`). The second reader
  takes the stream in windows cut at arbitrary bytes, carrying unfinished records over. It yields the records the whole
  read yields, exactly when none of them ends past the size its block declares; and the samples of a variable-length
  channel, exactly when each record's payload comes in the record's own window.
- **File layout** (`BlockFormat`, `FileLayout`, `FileBlocks`, `FileRegions`, `FileMeaning`, `FileHonesty`, `FileWriter`,
  `OversizedShape`). Pass 1 assigns every offset, pass 2 emits bytes. A *region* is a run of blocks together with the
  multiset of places its links name; joining regions and cancelling the joints proves that the passes agree and that
  every link lands, and each one lands on the very block it is meant for.
- **The file read back** (`FileFields`, `FileSamples`). From the bytes alone: following the links from the header, what
  the fields of each block say; and one theorem over all of it, that a record sliced by those fields is the sample given.
- **Conversions** (`Conversions`, `ConversionLaws`, `NestedConversions`, `WhiteSpace`). The writer plans a block for a rule, the reader builds a rule from a
  block: what is read of a channel in a written file, and when that is what was given.
- **Block walk** (`BlockWalk`, `LinkTree`, `WrittenFile`, `CleanWalk`). The breadth-first walk is proved complete and
  sound on any bytes, and clean on a written file: a gap-free tree.
- **Scrambling** (`Scramble`, `ScrambleKeeps`, `ScrambleLaws`, `ScrambleStray`). Text is replaced, the graph stays,
  a second run changes nothing, and the replaced text does not show in the output.
- **Index arithmetic** (`Transpose`, `DataBlocks`, `DataIndex`, `ArrayOffsets`). Transposition, range reads over the
  block index, nested array offsets.
- **Decryption** (`AesField`, `AesProduct`, `AesColumns`, `Aes`, `AesBytes`). The AES-256 and CBC code against FIPS 197 and NIST
  SP 800-38A, down to the field's product and the S-box.
- **Caches** (`BoundedLru`, `CachedReads`). Recency and both bounds; cached reads answer as if uncached.
- **CAN decoding** (`CanBits`, `Multiplex`, `Presence`). Bit extraction in both bit orders, sign extension, multiplexed signals.
- **Time axes** (`TimeAxis`, `Decimation`, `ViewWindow`, `JoinedValues`, `Concatenate`). Axis checks, union, the
  decimated view, concatenation of files.

`Bytes`, `Arithmetic`, `Sorting` and `Options` are shared groundwork.

Code that works step by step is modelled by classes and methods with loops, proved against functions; the lemmas are
about those functions. Preconditions on the methods are invariants the writer and the parser keep (such as: as many
samples as timestamps, a time axis in order, blocks that can be read) and, where the section below says so, the
condition under which the code does what it is for. Everywhere else errors are results.

## Where the code and its promises part

Each of these is stated with its exact condition and an input that fails.

- More than 255 groups in one data group lose their records, since the record ID is one byte
  (`Interleaving.ReadsBackExactly`, `Interleaving.LateGroupIsLost`, `Interleaving.LastOf256IsLost`).
- An array channel of 65536 or more dimensions gets a ##CA block whose declared length is wrong, and the file no longer
  walks cleanly (`FileHonesty.HonestExactly`, `OversizedShape.WalksCleanlyExactly`, `OversizedShape.OversizedSpoils`).
- Streaming cuts a block's windows by the size the block declares. A block whose invalidation bytes are stored apart
  has a longer payload, and records that end past that size are never streamed (`StreamingLosses.StreamedByOffset`,
  `StreamingRefines.ApartStreamsExactly`, `StreamingRefines.ApartRecordIsNotStreamed`).
- A chunk of a variable-length channel knows only the payloads of its own window. A record whose payload came in another
  window reads as an empty sample, where the whole read has the payload (`StreamedPayloads.ChunksAreWholeExactly`,
  `StreamedPayloads.ReadBothWays`, `StreamedPayloads.PayloadBeforeIsMissed`). Aligned windows know all payloads so far,
  and miss only one that comes later (`StreamedPayloads.EarlierWindowsKnow`, `StreamedPayloads.PayloadBehindIsMissed`).
- A conversion's counts are written in sixteen bits. A lookup table of 32768 keys is accepted and reads back as a rule
  that cannot be evaluated; a table of 65536 keys with labels reads back as one label for every value. Names, units,
  comments, labels and formulas are cut at a NUL and lose white space at their ends
  (`ConversionLaws.ChannelReadsBackExactly`, `ConversionLaws.CountsTrueExactly`, `ConversionLaws.FullTableIsLost`,
  `ConversionLaws.FirstLabelForAll`).
- A range read stops early where the binary search settles on an empty block, which any of several equal offsets
  allows it to (`DataIndex.SlicesExactly`, `DataIndex.RangeReadsExactly`, `DataIndex.EmptyBlockStopsRead`).
- Signals are told apart by name, on the path of multiplexors and in the memo of raw values. With two signals of one
  name a present signal can be left out, and a signal can be read, or selected, by the value of another
  (`Multiplex.DecodesTrulyExactly`, `Multiplex.SharedNameHidesSignal`, `Multiplex.SharedNameMisleads`).
- The documentation of `concatenate` says a file that would overlap begins one sample interval after the previous one
  ends. If its first two timestamps are equal it begins on the last timestamp instead
  (`JoinedValues.StartsBehind`, `JoinedValues.PushedOntoLast`).
- A view from +inf to +inf, or from -inf to -inf, shows the whole recording (`ViewWindow.WindowIsRequestedExactly`,
  `ViewWindow.ViewAtInfinity`).
- Scrambling promises to leave the block structure alone. A link into the last bytes of a text block's header that
  happen to spell ## can become a block, because its length is then read from replaced text
  (`ScrambleLaws.StructureIsKeptExactly`, `ScrambleStray.StructureCanChange`). When that block is text, a second run
  scrambles it too (`ScrambleStray.SecondRunCanChange`).
- The check of a nested array's element count bounds the combined count only. What the loop builds for one level, a count
  multiplied in 64 bits, is bounded whenever the check passes if and only if the combined count is not zero or no level
  has an element (`ArrayOffsets.CheckBoundsLevelsExactly`, `ArrayOffsets.BuildHiddenLevel`).

## Model

| member | source | states |
|---|---|---|
| `WriterModel.BuildSignalData` | src/write.rs:522-534 | the loop that fills a signal data block yields each sample behind its length, and the position of each |
| `WriterModel.SignalDataReadsBack` | src/write.rs:522-534 | the reader's walk over a signal data block finds every stored sample, under the offset the record carries |
| `WriterModel.ByteOffsets` | src/write.rs:1764-1775 | the running total gives each channel its place: the time stamp and the widths of the channels before it |
| `WriterModel.InvalBitIndices` | src/write.rs:1784-1799 | channels with validity flags get bit numbers in channel order, the others none |
| `RecordStream.InvalAreaBits` | src/write.rs:2026-2083 | a channel's bit in the invalidation bytes is set exactly when its sample is invalid, whatever the other channels |
| `RecordStream.ChannelReadsBack` | src/write.rs:1764-1775 | reading a record at a channel's byte offset gives the bytes stored for that channel and sample |
| `RecordStream.SampleInRecord` | src/write.rs:475-509 | a fixed-width sample stands in its record at the channel's offset byte for byte, cut to the width or with zeros behind it |
| `RecordStream.PayloadOfRecord` | src/write.rs:522-534 | the eight bytes a variable-length channel has in a record, looked up in what the reader files from the signal data, give the sample |
| `RecordStream.RecordReadsBack` | src/write.rs:2026-2083 | a record begins with its sample's time and its bit at the assigned index tells whether the sample counts |
| `RecordStream.EncodeRecord` | src/write.rs:2026-2083 | the body of the record loop appends time, samples and invalidation bytes of one sample |
| `RecordStream.WriteRecords` | src/write.rs:2026-2083 | the record loop yields the group's records in stable time order, also when it finds the axis already sorted |
| `RecordStream.WriteRecordsMulti` | src/write.rs:2091-2181 | collecting, sorting and writing all samples yields the tagged records in (time, group, sample) order |
| `Streams.InterleavingProjects` | src/write.rs:2091-2181 | the sort of all samples, seen from one group, is that group's own stable time sort |
| `Streams.InterleavedInOrder` | src/write.rs:2091-2181 | records of all groups follow each other in order of time, at one time in order of group and then as appended, every sample once |
| `Float64.OrderIsNumeric` | src/write.rs:1737-1741 | on finite bit patterns the order of the sort is the order of the numbers they mean, with -0 before +0 |
| `Sorting.SortFilter` | src/write.rs:1737-1741 | a stable sort commutes with picking out elements |
| `Demux.BuildRecordMap` | src/file.rs:797-802 | the map from record ID to group keeps the last group that claims an ID |
| `Demux.IdIsRead` | src/file.rs:826-882 | an ID of 1, 2, 4 or 8 bytes is read as the number written little-endian, from any bytes behind it |
| `Demux.RecordIsRecognised` | src/file.rs:826-882 | a record that is there whole is recognised as its group's with its length; a variable-length one by the length behind its ID |
| `Demux.NothingRecognised` | src/file.rs:826-882 | nothing is recognised exactly where the ID is cut off or unknown, the length is cut off, or a fixed record is empty or cut off |
| `Demux.IndexBlock` | src/file.rs:826-882 | the walk over one block logs each record it can delimit, at its offset in the whole stream, and stops at the first it cannot |
| `Demux.IndexRecords` | src/file.rs:756-895 | over all blocks, the index holds for each group exactly its logged offsets in order, and the kept stream is the concatenated payload |
| `Demux.GatherRecords` | src/file.rs:3056-3082 | the copy loop yields the bytes behind the ID at each offset that lie inside the stream |
| `Demux.StreamGathers` | src/file.rs:3056-3082 | index then gather, for any bytes cut into any blocks, yields exactly the group's records lying inside a block |
| `Interleaving.DemuxUndoesInterleaving` | src/write.rs:2091-2181 | for any groups whose IDs fit, reading a group back from the interleaved stream gives what is written for it alone |
| `Interleaving.LateGroupIsLost` | src/write.rs:2151 | a group past the 255th reads back empty from any stream at all |
| `Interleaving.ReadsBackExactly` | src/write.rs:2151 | all groups read back if and only if no group past the 255th has a sample |
| `Interleaving.LastOf256IsLost` | src/write.rs:2151 | 255 groups with one record each all read back; of 256 the last reads back empty |
| `Interleaving.WriteThenRead` | src/file.rs:797-888 | the writer's and the reader's loops composed return each group's own records and their number |
| `DataBlocks.Interleave` | src/file.rs:918-931 | the loop puts each record's invalidation bytes beside it, for as many records as both buffers hold whole |
| `DataBlocks.ReadBlockPayload` | src/file.rs:898-948 | a block's payload, or the refusal when the record layout is missing |
| `DataBlocks.InterleavingKeepsAllExactly` | src/file.rs:918-931 | interleaving keeps every byte if and only if both buffers hold the same number of whole records and nothing else |
| `DataBlocks.RecordBesideItsBytes` | src/file.rs:918-931 | record i is found in the payload with its own invalidation bytes directly behind it |
| `DataBlocks.SizeIsLengthExactly` | src/data_index.rs:208-213 | the size the index counts with is the payload's if and only if interleaving loses no byte |
| `DataBlocks.RangeIsWindow` | src/file.rs:3125-3142 | a read within a block is the clipped slice of its payload, for a plain block too, which is never read whole |
| `DataBlocks.RangeBytes` | src/file.rs:3125-3142 | a range read has exactly the bytes that are there up to the length asked for, each from its own place |
| `DataIndex.DataBlockIndex.Push` | src/data_index.rs:208-213 | a pushed block begins where the ones before it end |
| `DataIndex.DataBlockIndex.BlockForOffset` | src/data_index.rs:238-253 | the block the search settles on and a position in it that add up to the offset; the byte is in that block unless it is empty; nothing past the end |
| `DataIndex.BinarySearch` | src/data_index.rs:238-253 | the search returns a match if there is one (any of several), or the insertion point |
| `DataIndex.LookupWorksExactly` | src/data_index.rs:238-253 | whatever match the search returns the byte is found, if and only if no empty block has bytes behind it |
| `DataIndex.ReadPiece` | src/file.rs:3160-3178 | one turn of the range read, whatever the search settles on: up to the end of that block, an error, or nothing from an empty one |
| `DataIndex.ReadDataIndexRange` | src/file.rs:3145-3181 | over any index and any search that keeps the library's promise, the pieces up to the end, an error or the first empty piece; the clipped slice of the stream when no empty block has bytes behind it |
| `DataIndex.SlicesExactly` | src/file.rs:3145-3181 | for any one search: every range read is the slice if and only if the search never settles on an empty block |
| `DataIndex.RangeReadsExactly` | src/file.rs:3145-3181 | every range read is the slice whatever the search returns, if and only if no empty block has bytes behind it |
| `DataIndex.EmptyBlockStopsRead` | src/file.rs:3160-3178 | an index of an empty block and a block of one byte, and a permitted search by which the read of that byte returns nothing |
| `DataIndex.BisectionServes` | src/data_index.rs:238-253 | bisection is such a search, so the promise asked of the library can be kept |
| `Streaming.Collect` | src/stream.rs:152-204 | one pass over a window yields the target's records in it, the ranges of the payloads its companion group sends, and how far whole records reach |
| `Streaming.WalkInPieces` | src/stream.rs:152-204 | walking a + b is walking a and then what a left over followed by b, for every cut |
| `Streaming.TakeRecords` | src/stream.rs:275-351 | records and payloads taken and bytes carried: a rest is dropped at a block's end in an interleaved stream and kept otherwise |
| `Streaming.CutSegments` | src/stream.rs:213-242 | large plain blocks are cut into windows, others are one window, only a block's last window ends it |
| `Streaming.PlainBlockIsCut` | src/stream.rs:213-242 | a plain block of more than 4 MiB becomes windows of exactly 4 MiB and a last one with the rest |
| `Streaming.SignalChunks.Next` | src/stream.rs:275-404 | a chunk is the next records pending, up to the count; nothing pending is lost between chunks; its payloads are its own window's, numbered from where all windows before it leave off |
| `Streaming.BlockInWindows` | src/stream.rs:213-242 | the windows of a block give what the carried bytes and the block give together, however they are cut |
| `Streaming.SortedInWindows` | src/stream.rs:275-351 | in a fixed-stride stream a record cut by a window or a block end is completed by what follows |
| `Streaming.BlockSeenWholeExactly` | src/stream.rs:213-242 | the windows show the whole payload if and only if the declared size covers it |
| `Streaming.SeparateInvalidationIsCut` | src/stream.rs:217-242 | a block with its invalidation bytes apart is seen whole if and only if it has none |
| `StreamingRefines.SignalsChunks.Next` | src/stream.rs:861-1007 | a window of exactly the chunk size, or the last shorter one, and no record lost; its payloads are those of all windows read so far |
| `StreamingRefines.InterleavedStreams` | src/stream.rs:152-242 | all chunks together give the records of what each block shows, one block after another; of the payloads, when the sizes cover them |
| `StreamingRefines.SortedStreams` | src/stream.rs:275-351 | all chunks of a fixed-stride stream give the whole records of what the blocks show joined together; of the payloads, when the sizes cover them |
| `StreamingRefines.InterleavedStreamsExactly` | src/stream.rs:152-242 | over any blocks, all the target's records are streamed if and only if none is lost behind a declared size, and otherwise short by as many |
| `StreamingRefines.SortedStreamsExactly` | src/stream.rs:275-351 | over any blocks, all whole records are streamed if and only if they come unchanged at the front of what the blocks show; with no partial record at the end, if and only if every size covers its payload |
| `StreamingRefines.ApartStreamsExactly` | src/stream.rs:217-242 | over blocks with their invalidation bytes apart, all records are streamed if and only if no block has any |
| `StreamingRefines.ApartRecordIsNotStreamed` | src/stream.rs:217-242 | a record that the whole read returns and the chunks never give |
| `StreamingRefines.StreamingRefinesGather` | src/stream.rs:152-242 | for any group of values and any blocks, the streamed records are those index and gather yield, and as many, if and only if none is lost; short by the number lost |
| `StreamingLosses.WalkWithin` | src/stream.rs:152-204 | when only a part of some data is shown, the walk misses no record of the target if and only if every one that the index logs ends in that part |
| `StreamingLosses.StreamedByOffset` | src/stream.rs:217-242 | nothing is lost if and only if every record of the group that the index has ends within the size its block declares |
| `StreamingLosses.ReadBothWays` | src/file.rs:756-895 | indexing, gathering and chunked reading up to the indexed count run together return the same bytes if and only if that holds |
| `StreamingRefines.ReadByChunks` | src/stream.rs:275-351 | driving the chunk iterator to its end yields the first `count` of all records |
| `StreamingRefines.ReadByWindows` | src/stream.rs:861-941 | driving the aligned iterator yields the same records in windows of exactly the chunk size but the last |
| `Payloads.PartKnows` | src/model/vlsd.rs:107-130 | payloads numbered in parts: a part resolves exactly the offsets of its own range, as the whole table does |
| `Payloads.VlsdPayloads.GetFrom` | src/model/vlsd.rs:152-163 | the payload filed under the offset, whatever the hint and whatever the binary search |
| `Payloads.FromLocated` | src/model/vlsd.rs:107-124 | the loop files payloads one behind the other from the base on and returns the next base |
| `Payloads.FromRecords` | src/model/vlsd.rs:83-104 | the loop files the payloads of the records at the given offsets, up to the first that runs past the end |
| `StreamedPayloads.DecodeSamples` | src/model/signal.rs:1127-1242 | each sample is the payload its record refers to, or empty when there is none |
| `StreamedPayloads.WholePayloads` | src/file.rs:2991-3025 | indexing the payload group's records and locating their payloads is picking the payloads block by block |
| `StreamedPayloads.ChunksAreWholeExactly` | src/stream.rs:275-404 | the chunks give the whole read's samples if and only if every record finds its payload in its own window, or has none to show |
| `StreamedPayloads.EarlierWindowsKnow` | src/stream.rs:902-921 | the payloads of the windows so far resolve exactly what does not begin behind them |
| `StreamedPayloads.AlignedIsWhole` | src/stream.rs:861-1007 | where no payload comes behind its record's window, an aligned window shows the whole read's samples, whenever it is handed out |
| `StreamedPayloads.OwnIsNotLater` | src/stream.rs:275-404 | where the chunks give the whole read's samples no payload comes behind its record's window, so aligned windows do too |
| `StreamedPayloads.ReadByChunks` | src/stream.rs:275-404 | driving the chunk iterator yields the first `count` of all windows' samples |
| `StreamedPayloads.ReadAligned` | src/stream.rs:861-1007 | driving the aligned iterator yields the whole read's samples for every chunk size, where no payload comes behind its record's window |
| `StreamedPayloads.ReadBothWays` | src/file.rs:2991-3025 | whole read and chunks run over one file give the same samples if and only if every record finds its payload in its own window, or has none to show |
| `StreamedPayloads.PayloadBeforeIsMissed` | src/stream.rs:319-346 | two blocks, a payload and then its record: the whole read has the payload, the chunks give an empty sample |
| `StreamedPayloads.PayloadBehindIsMissed` | src/stream.rs:902-921 | the same blocks in the other order: an aligned window of the record alone has an empty sample |
| `Transpose.TransposeBytes` | src/write.rs:2189-2211 | the column loop yields the transposed table and the untouched tail, for every string and column size |
| `Transpose.TransposedCell` | src/write.rs:2189-2211 | row r, column c of the records is at row c, column r of the transposed block |
| `Transpose.UnTransposeBytes` | src/file.rs:3223-3257 | the banded loop agrees with the simple formula and writes each table position once; a zero column size is refused |
| `Transpose.UnTransposeUndoesTranspose` | src/file.rs:3223-3257 | the reader's un-transposition restores the writer's bytes, tail included |
| `Transpose.TransposeUndoesUnTranspose` | src/file.rs:3223-3257 | and the other way round |
| `BlockFormat.Joined` | src/write.rs:880-994 | two runs laid end to end form a run whose open links are those neither closes for the other |
| `FileLayout.CollectDataGroups` | src/write.rs:851-859 | groups are collected by data group ID, in order of first appearance, each group once |
| `FileLayout.BuildPayload` | src/write.rs:1636-1706 | the data group's bytes, plain or packed, or the refusal to transpose several record sizes |
| `FileLayout.PayloadReadsBack` | src/write.rs:1636-1706 | unpacking a stored payload as its block describes it gives the records again |
| `FileLayout.NewLayout` | src/write.rs:1520-1577 | a channel's parts are placed end to end behind its ##CN block, none overlapping, in the order the getters assume |
| `FileLayout.AssignOffsets` | src/write.rs:880-938 | pass 1 places every data group behind what the groups before it take up |
| `FileBlocks.PushRefLinks` | src/write.rs:1979-2022 | the running text offset names each conversion text where the texts are written |
| `FileRegions.CcRun` | src/write.rs:1979-2022 | a conversion and its texts fill `CcPlan::size`, each reference naming its own text |
| `FileRegions.ChannelRun` | src/write.rs:1520-1614 | a channel's blocks fill its footprint; of its links only the next channel leads out |
| `FileRegions.CgRun` | src/write.rs:1891-1946 | a channel group's blocks fill the space assigned to them, its channels chained in order |
| `FileRegions.PayloadRun` | src/write.rs:2217-2270 | a data block, or the ##HL to ##DL to ##DZ chain, fills `Payload::size` |
| `FileRegions.DgRun` | src/write.rs:880-994 | a data group, its groups and its payload fill the space assigned to them |
| `FileRegions.TwoPassesAgree` | src/write.rs:880-994 | for every writer state the emitted blocks begin where pass 1 put them, and every block but ##HD is named by exactly one link, of the kind that link calls for |
| `FileMeaning.OwnLinks` | src/write.rs:1918-1946 | a channel's links lead to its own name, unit, comment, conversion, shape and signal data, not to others of their kind |
| `FileMeaning.OwnRefs` | src/write.rs:1979-2022 | each text reference of a conversion leads to the block that holds that very text |
| `FileMeaning.EveryLinkMeant` | src/write.rs:880-994 | in the whole file each link of every header, group and channel leads to the very block meant, along the chains in their order |
| `FileHonesty.CaHonest` | src/write.rs:1949-1966 | an array block's declared length is the emitted one if and only if it has fewer than 65536 dimensions |
| `FileHonesty.HonestExactly` | src/write.rs:1805-1975 | every header in the file is true if and only if no array channel has 65536 dimensions or more |
| `Conversions.PlanConversion` | src/write.rs:1372-1462 | the block a rule needs, none for an identity, or the refusal, for every kind of rule |
| `Conversions.ParseCc` | src/blocks/conversion.rs:130-199 | the references by the header's link count and the numbers by the body's own count, or the first error |
| `Conversions.BuildConversion` | src/file.rs:3951-4158 | the rule a block is built into, nested rules to the depth limit |
| `Conversions.ConversionOf` | src/file.rs:1778-1785 | the rule a channel's conversion link leads to, parser and builder composed; none without a link |
| `ConversionLaws.CountsTrueExactly` | src/write.rs:2008-2009 | a conversion's two counts are true if and only if both numbers are below 65536 |
| `ConversionLaws.TextIsRead` | src/blocks/text.rs:22-47 | a written text reads back up to a NUL and without white space at its ends |
| `ConversionLaws.CcIsRead` | src/blocks/conversion.rs:130-199 | a written conversion block reads back with all its references, and with its numbers up to their number modulo 65536 |
| `ConversionLaws.ConversionReadsBack` | src/file.rs:3936-4158 | whatever the rule, what the reader builds from the block in a written file: the rule, with shown texts and the table cut to the count kept |
| `ConversionLaws.RecoveredExactly` | src/write.rs:1372-1462 | that is the rule itself, or none for an identity, if and only if a table has fewer than 32768 keys, a table of labels fewer than 65536, texts are clean and a formula parses |
| `ConversionLaws.ChannelReadsBackExactly` | src/file.rs:1766-1785 | a channel of a written file reads back with its name, unit, comment and conversion if and only if the texts are clean and the conversion meets that condition |
| `ConversionLaws.IdentityByValue` | src/write.rs:1372-1462 | a linear rule is left out if and only if, as numbers, it adds zero to one times the value |
| `ConversionLaws.SameParser` | src/scramble.rs:235-262 | the conversion blocks that keys are collected from are exactly those a reader can parse |
| `NestedConversions.NestedReadsBackExactly` | src/file.rs:3951-4210 | a conversion with conversions among its entries, or comments in XML, is read back four levels deep, and as itself if and only if nothing is nested deeper |
| `NestedConversions.KeptExactly` | src/file.rs:4171-4210 | cutting off at a depth leaves a conversion as it is if and only if nothing in it is nested deeper |
| `WhiteSpace.TrimTakesWhite` | src/blocks/text.rs:153-160 | trimming takes characters with the Unicode property White_Space off both ends of a text, all of them and nothing else |
| `ConversionLaws.FullTableIsLost` | src/write.rs:2009 | 32768 keys are accepted, and nothing of the table is read back |
| `ConversionLaws.FirstLabelForAll` | src/write.rs:2009 | 65536 keys with labels are accepted, and the first label is read back for every value |
| `FileWriter.Output.PutChannel` | src/write.rs:1918-1946 | emitting a channel appends its blocks, the ##CN block first and its parts in the order their offsets were assigned |
| `FileWriter.Output.PutDataGroup` | src/write.rs:940-994 | emitting a data group appends its groups and payload in the order pass 1 assumed |
| `FileWriter.Output.Emit` | src/write.rs:940-994 | pass 2 emits the blocks of the whole file in order |
| `FileWriter.WriteFile` | src/write.rs:848-995 | writing yields the ID block and those blocks; it is refused if and only if records are to be transposed and two groups share a data group |
| `FileFields.HeaderFields` | src/write.rs:1816-1860 | the bytes of a written file's ID block and header: signature, version, no unfinalized flag, and the start time in header and history |
| `FileFields.DataGroupFields` | src/write.rs:1872-1889 | following the links to data group d: its record ID size, and its payload, plain or packed, with zip type, parameter and both lengths |
| `FileFields.GroupFields` | src/write.rs:1891-1915 | and on to group g: the bytes of its record ID, sample count, data bytes and invalidation bytes |
| `FileFields.ChannelFields` | src/write.rs:1918-1965 | and on to channel k: the bytes of its type, data type, byte offset, bit count, flags and invalidation bit, and of its array's stride and dimensions |
| `FileFields.MasterFields` | src/write.rs:1918-1946 | and its master: a 64-bit float time at the front of every record |
| `FileSamples.GroupReadsBack` | src/write.rs:848-995 | the payload found by the links, unpacked as its block says and walked by the IDs the blocks say, gives the group's records |
| `FileSamples.OrderIsStable` | src/write.rs:1737-1741 | those records are in order of time, equal times as they were appended, and each sample has one |
| `FileSamples.SampleReadsBack` | src/write.rs:848-995 | of any channel and sample of a written file: the record sliced by the fields read from the file is that channel's sample, or refers to it, and the bit the file names tells whether it counts |
| `FileSamples.GroupIsSomewhere` | src/write.rs:851-859 | every group that was added is in the file, beside exactly those that ask for its data group, in their order |
| `LinkTree.LinkLands` | src/write.rs:880-994 | every non-zero link names the start of a later block of the kind that link calls for |
| `LinkTree.HasReferrer` | src/write.rs:880-994 | every block but the first is named by an earlier one |
| `LinkTree.OneReferrer` | src/write.rs:880-994 | no block is named by two links |
| `WrittenFile.BlockReadsBack` | src/inspect.rs:263-347 | the walk reads an emitted block as it was written: type, length, links, data size |
| `WrittenFile.ReachableIsStart` | src/inspect.rs:201-225 | in a written file the walk reaches exactly the starts of the emitted blocks |
| `CleanWalk.WrittenFileWalksCleanly` | src/inspect.rs:201-437 | any true listing has the ID block and every emitted block once with its one referrer, no gap, no warning, all bytes covered |
| `FileWriter.WrittenWalksCleanly` | src/inspect.rs:201-437 | writer and walk composed: whatever `write` returns walks cleanly, every entry as emitted, and is not flagged unfinalized |
| `OversizedShape.WalksCleanlyExactly` | src/write.rs:1949-1966 | what is written walks cleanly if and only if no array channel has 65536 dimensions or more |
| `OversizedShape.OversizedSpoils` | src/write.rs:1949-1966 | a writer with one such channel, whose file does not walk cleanly |
| `FileWriter.WriteThenScan` | src/write.rs:848-995 | from the groups given to the listing: no gap, no warning, all bytes covered, one referrer for every block but ##ID and ##HD, unless the walk reports its cap |
| `FileWriter.SharedExactly` | src/write.rs:851-859 | two groups ask for one data group if and only if some collected data group has more than one |
| `FileWriter.IdIsFinalized` | src/write.rs:1816-1824 | the ID block written never declares the file unfinalized |
| `BlockWalk.PopBlock` | src/inspect.rs:263-347 | listing a block and queueing its links keeps the walk's invariant: every link settled or waiting, every entry genuine |
| `BlockWalk.PopRejected` | src/inspect.rs:263-310 | reporting a target that is no block keeps it |
| `BlockWalk.PopListed` | src/inspect.rs:201-225 | noting a further referrer keeps it |
| `BlockWalk.Walk.ReadIdBlock` | src/inspect.rs:230-261 | the ID block is listed, or the short file reported, and the two unfinalized marks read |
| `BlockWalk.UnfinalizedByBytes` | src/inspect.rs:230-261 | which bytes of the ID block say that a file is unfinalized |
| `BlockWalk.Walk.QueueLinks` | src/inspect.rs:317-328 | non-zero links join the queue, links to the block itself are reported with their index |
| `BlockWalk.Walk.Visit` | src/inspect.rs:263-347 | a popped address is listed as the file spells it, or reported with the first check it fails |
| `BlockWalk.Walk.Follow` | src/inspect.rs:201-225 | the loop terminates on any bytes: either the queue is drained with nothing lost or the cap is reported |
| `BlockWalk.DrainedFindsAll` | src/inspect.rs:201-225 | with the queue drained every block reachable from offset 64 is listed |
| `BlockWalk.SweepGaps` | src/inspect.rs:409-427 | a byte is in a gap if and only if no listed block covers it, overlapping blocks included; gaps are maximal |
| `BlockWalk.Scan` | src/inspect.rs:136-138 | on any bytes: exactly the reachable valid blocks, all distinct referrers, gaps, and a warning for each bad or self link and no other, unless the cap stops it |
| `BlockWalk.EntryByBytes` | src/inspect.rs:263-347 | what is listed at an address, by the bytes there: type, length, links and data size; the ID block at address 0 |
| `BlockWalk.FaultByBytes` | src/inspect.rs:263-310 | which of the four faults is reported for an address, by the bytes there |
| `Scramble.ScrambleText` | src/scramble.rs:268-275 | every byte before the terminator becomes the next letter, the rest stays |
| `Scramble.ScrambleMarkup` | src/scramble.rs:284-305 | bytes between tags become letters, tags, whitespace and what follows the terminator stay |
| `Scramble.DecodeCriticalText` | src/scramble.rs:235-262 | the protected addresses are the keys of every listed conversion |
| `Scramble.ProtectedExactly` | src/scramble.rs:235-262 | an address is collected if and only if some listed conversion refers to it as a key |
| `Scramble.PlanPatches` | src/scramble.rs:185-228 | one patch per unprotected text block with text, letters drawn in one sequence over all blocks |
| `Scramble.ScrambleFile` | src/scramble.rs:104-160 | the patched copy and its report; only the ID block can refuse a file, a patch never has the wrong length |
| `Scramble.RefusedByBytes` | src/scramble.rs:104-125 | which files are scrambled: the ID block is whole, with either signature and version 4.00 or later |
| `Scramble.FirstNumbers` | src/scramble.rs:308-333 | from seed 0 the generator gives the first two numbers published for SplitMix64 |
| `ScrambleKeeps.TwinsOutTheSame` | src/scramble.rs:185-228 | two files with one listing that differ only in replaced text are planned alike and come out the same |
| `ScrambleKeeps.ListingsAgree` | src/inspect.rs:201-437 | where listed blocks are intact and no stray link became a block, two files are listed alike |
| `ScrambleLaws.OnlyTextChanges` | src/scramble.rs:185-228 | a byte that is not replaced text of an unprotected block is unchanged, whatever overlaps |
| `ScrambleLaws.TextBecomesLetters` | src/scramble.rs:331-333 | a replaced byte is the letter given by the seed and the number of replaced bytes before it |
| `ScrambleLaws.TextKeepsItsShape` | src/scramble.rs:268-305 | a text block keeps its terminator, its tags and which of its bytes are text |
| `ScrambleLaws.TextByType` | src/scramble.rs:185-305 | by block type and bytes: of an unprotected ##MD block every tag and white-space byte is the original's and every other byte before the terminator is a letter; of a ##TX block every byte before the terminator is a letter |
| `ScrambleLaws.ProtectedByType` | src/scramble.rs:235-262 | by bytes: an address is protected if and only if a listed ##CC block of type 3, 9 or 10 refers to it where that type has its keys |
| `ScrambleLaws.OtherBlocksKept` | src/scramble.rs:235-262 | conversion keys and all blocks that are not text keep their data |
| `ScrambleLaws.StructureIsKept` | src/scramble.rs:185-228 | with text apart from other blocks and no stray link that the letters due will turn into a block, the output is listed with the same addresses, types, lengths and links |
| `ScrambleLaws.StructureIsKeptExactly` | src/scramble.rs:185-228 | with text apart, the listing is kept if and only if, with the letters due put in, no stray link's header spells a block: judged on the original and the seed |
| `ScrambleLaws.SafeStraysSpellNone` | src/scramble.rs:185-228 | no seed can turn a stray link into a block when its header is untouched, unmarked, out of the file, or its mark is replaced |
| `ScrambleLaws.SecondRunChangesNothing` | src/scramble.rs:104-160 | under the same condition, scrambling the output with the same seed returns it unchanged |
| `ScrambleLaws.ReplacedTextDoesNotShow` | src/scramble.rs:268-305 | files that differ only in replaced text come out byte for byte the same |
| `ScrambleStray.StructureCanChange` | src/scramble.rs:185-228 | a file with its text apart from every block whose listing scrambling changes, whatever the seed |
| `ScrambleStray.SecondRunCanChange` | src/scramble.rs:104-160 | on that file a second run with the same seed changes the output, whatever the seed |
| `ArrayOffsets.RowMajorToStored` | src/model/signal.rs:24-45 | for any dimensions the loop gives each row-major position the one its strides give in 64-bit arithmetic, and its stored position when the leading products fit |
| `ArrayOffsets.StoredIsColumnMajor` | src/model/signal.rs:24-45 | an element's stored position is its column-major position |
| `ArrayOffsets.StoredPermutes` | src/model/signal.rs:24-45 | storing by columns is a permutation of the positions |
| `ArrayOffsets.ElementOffset` | src/file.rs:4361-4393 | the offset at a row-major position of the combined shape is the sum over levels of the level's stored index times its stride |
| `ArrayOffsets.ResolveOffsets` | src/file.rs:4349-4393 | exactly as many offsets as the product of all dimensions, each the right one in 64-bit arithmetic; refused on overflow, absent above the cap; and how many are built for each level on the way |
| `ArrayOffsets.LevelWithinCap` | src/file.rs:4351-4375 | a combined count that passes the check and is not zero bounds what is built for every level |
| `ArrayOffsets.CheckBoundsLevelsExactly` | src/file.rs:4351-4375 | a passed check bounds what is built for every level, for every cap, if and only if the combined count is not zero, or no level has an element, or the check never passes |
| `ArrayOffsets.BuildHiddenLevel` | src/file.rs:4351-4393 | run on dimensions 0 and then 2^40 with a cap of zero, the loop builds 2^40 offsets and returns none |
| `ArrayOffsets.WalkChain` | src/file.rs:4315-4347 | the composition links are followed to the first ##CN, to none, to a block that cannot be read, or given up on at the depth limit or a block that does not fit |
| `ArrayOffsets.ChainIsFollowed` | src/file.rs:4315-4347 | a chain is found if and only if blocks stand in the file, each at the link of the one before, no more than allowed; it has their levels and the element the last one is made of |
| `ArrayOffsets.ResolveCaChain` | src/file.rs:4305-4405 | both together: the shape, the element's type, width and place as the chain's end states them, and the offsets |
| `AesField.Gmul` | src/crypto.rs:284-298 | the loop with its early shifts and conditional reduction computes `Times`, eight turns of shift and add |
| `AesProduct.FieldLaws` | src/crypto.rs:284-298 | `Times` is the product of FIPS 197, section 4.2: one is neutral, x doubles with reduction, sums distribute, factors commute and associate |
| `AesProduct.OnlyProduct` | src/crypto.rs:284-298 | any operation for which one is neutral, x doubles and sums distribute is `Times` |
| `AesProduct.SboxIsAffineOfInverse` | src/crypto.rs:199-216 | each entry of the S-box is the affine map of FIPS 197, section 5.1.1, of the one factor that gives one; of zero at zero |
| `AesField.InvSboxUndoesSbox` | src/crypto.rs:199-235 | the two tables are inverse to each other |
| `AesColumns.InvMixUndoesMix` | src/crypto.rs:301-314 | the inverse column mix undoes the column mix of FIPS 197, for every column |
| `Aes.RconArePowers` | src/crypto.rs:237-241 | the round constants are the powers of x |
| `Aes.ExpandKey` | src/crypto.rs:263-280 | the key expansion loop yields the schedule of FIPS 197, section 5.2 |
| `Aes.AddRoundKey` | src/crypto.rs:346-354 | the round key is added to the state in place |
| `Aes.UnshiftRows` | src/crypto.rs:317-336 | the in-place row rotations are the inverse row shift |
| `Aes.UnsubBytes` | src/crypto.rs:339-343 | every byte of the state goes through the inverse table |
| `Aes.UnmixColumns` | src/crypto.rs:301-314 | every column of the state is multiplied by the inverse matrix |
| `Aes.Decrypt` | src/crypto.rs:357-374 | the rounds over the in-place state are the inverse cipher of FIPS 197, section 5.3 |
| `Aes.DecryptUndoesEncrypt` | src/crypto.rs:357-374 | the inverse cipher undoes the cipher of FIPS 197, section 5.1, under any key |
| `AesBytes.CipherByBytes` | src/crypto.rs:263-374 | that cipher is the standard's, written down byte by byte: key expansion, substitution, row shift, column mix and key addition |
| `AesBytes.DeciphersBytes` | src/crypto.rs:357-374 | so a block of such bytes is deciphered to the block they encipher |
| `AesBytes.RoundKeyByBytes` | src/crypto.rs:263-280 | the round keys are the bytes of the expanded key, given byte by byte |
| `AesBytes.RowsMoveBack` | src/crypto.rs:317-336 | the inverse row shift by row and column |
| `AesBytes.ColumnsMix` | src/crypto.rs:301-314 | the column mix that is undone, by row and column, as products by two and three |
| `Aes.CbcUndone` | src/crypto.rs:379-396 | chaining is undone for any block cipher that can be undone |
| `Aes.CbcBlock` | src/crypto.rs:379-396 | each cipher block is the one before it, or the IV, added to the plain block and enciphered |
| `Aes.CbcDecryptBytes` | src/crypto.rs:379-396 | the loop over whole blocks is CBC decryption; a partial block at the end is ignored |
| `Aes.CbcRoundTrip` | src/crypto.rs:379-396 | for every key, IV and number of blocks, decryption recovers the plaintext |
| `BoundedLru.SurvivorsAreLongestSuffix` | src/file.rs:327-350 | after an insert the survivors are the longest most recent run meeting both bounds, or the new entry alone |
| `BoundedLru.Lru.Get` | src/file.rs:314-321 | a hit returns the last value inserted under the key and makes it most recent; a miss changes nothing |
| `BoundedLru.Lru.Insert` | src/file.rs:327-350 | the new entry replaces its key's and is most recent; what remains is the eviction of that list |
| `BoundedLru.Lru.Evict` | src/file.rs:339-349 | removing the entry with the least stamp, over and over, drops entries in order of last use |
| `CachedReads.SeedIsStream` | src/file.rs:826-888 | the stream kept while indexing is the stream a first read would assemble |
| `CachedReads.ReadRaw` | src/file.rs:3085-3107 | assembling the blocks gives their joined payloads or the first error |
| `CachedReads.Reader.Seed` | src/file.rs:2873-2885 | seeding the cache with true streams keeps it true |
| `CachedReads.Reader.RawStreamFor` | src/file.rs:2892-2905 | whatever was read, seeded or evicted before, the answer is the uncached one |
| `CachedReads.Reader.RecordsFor` | src/file.rs:2853-2866 | likewise for a group's records |
| `CachedReads.SortedRecordAt` | src/file.rs:2939-2958 | sliced by the layout handed out, record i of a group read in one run is the one behind i records and their IDs |
| `CachedReads.IndexedRecordAt` | src/file.rs:2919-2937 | of an indexed group it is the one behind the ID at offset i, and there are as many as offsets |
| `CanBits.ReadMotorola` | src/candb.rs:499-534 | the most-significant-first loop reads the bits from the start position on |
| `CanBits.ReadIntel` | src/candb.rs:499-534 | the least-significant-first loop reads the bits from the start bit up |
| `CanBits.ReadRawValue` | src/candb.rs:499-534 | the branch taken, and refused exactly for a size of 0 or above 64 or bits beyond the payload |
| `CanBits.BigEndianRunsDown` | src/candb.rs:499-534 | a big-endian value's bits run from the start bit down its byte and on from the top of the next; refused exactly where fewer are left, or for a size of 0 or above 64 |
| `CanBits.LittleEndianRunsUp` | src/candb.rs:499-534 | a little-endian value's bits run up from the start bit; refused exactly where fewer are left |
| `CanBits.OneBitEitherWay` | src/candb.rs:499-534 | a signal of one bit reads the same in both orders |
| `CanBits.IntelIsShiftAndMask` | src/candb.rs:499-534 | an Intel read is a shift and a mask of the payload as one number |
| `CanBits.OrdersMirror` | src/candb.rs:499-534 | a Motorola read equals the Intel read of the reversed payload at the mirrored position |
| `CanBits.ReadsMirror` | src/candb.rs:499-534 | both orders refuse in the same cases and agree otherwise |
| `CanBits.RawValueFits` | src/candb.rs:499-534 | a value read is below two to the signal's size |
| `CanBits.SignExtendIsReading` | src/candb.rs:484-496 | sign extension gives the one value of the signed range congruent to the raw value |
| `Multiplex.ChainAccepted` | src/dbc.rs:157-208 | one signal's chain is accepted if and only if no name occurs twice and it is not too long |
| `Multiplex.ValidateGraph` | src/dbc.rs:154-210 | a message is accepted if and only if every chain ends |
| `Multiplex.CutOffExactly` | src/candb.rs:391-437 | in any message and whatever has been read, selection is cut off if and only if a name repeats on the chain or it is too long, and then nothing is read |
| `Multiplex.SelectsPresent` | src/candb.rs:391-451 | on a clear chain selection is the unbounded definition and files only true values, when signals present under one name read the same |
| `Presence.LinkByPosition` | src/candb.rs:404-436 | a multiplexed signal's link holds if and only if the message's first switch has the raw value wanted, or the first signal of the name given has one in a range given |
| `Presence.PresentExactly` | src/candb.rs:391-437 | presence by positions and payload bits: a plain signal and the switch always, a multiplexed one if and only if the signal that decides about it is present and selects it |
| `Multiplex.SelectionIsPresence` | src/candb.rs:391-437 | on an accepted message with distinct names selection is the unbounded definition, no cutoff is taken and only true values are filed |
| `Multiplex.FrameDecoder.RawCached` | src/candb.rs:440-451 | any message: the value filed under the name, or the signal's own, which is then filed |
| `Multiplex.FrameDecoder.IsSelected` | src/candb.rs:391-437 | any message: the recursion decides and files as specified and restores the visiting set |
| `Multiplex.FrameDecoder.DecodeEach` | src/candb.rs:330-365 | any message: the readings and the memo of a frame; exactly the present, readable signals on an accepted message with distinct names |
| `Multiplex.DecodesTrulyExactly` | src/candb.rs:330-451 | a frame yields the present signals with their own values, and leaves a true memo, if and only if no present readable signal's chain repeats a name or is too long and signals present under one name read the same |
| `Multiplex.ReadingsTell` | src/candb.rs:330-365 | where every present signal can be read, the readings alone are right if and only if that holds |
| `Multiplex.EveryFrameTrue` | src/candb.rs:330-451 | every frame is decoded truly when all chains are clear and one name has one placement |
| `Multiplex.SharedNameHidesSignal` | src/candb.rs:404-408 | an accepted message and a frame in which a present, readable signal is never handed over |
| `Multiplex.SharedNameMisleads` | src/candb.rs:440-451 | an accepted message with clear chains and a frame in which the switch is handed over with another signal's value, and a signal it does not select is handed over |
| `TimeAxis.ValidateAxis` | src/time_ops.rs:13-44 | the first fault of an axis: a length mismatch, an invalid or non-finite stamp, a step back |
| `TimeAxis.ChunksCheckTheWhole` | src/time_ops.rs:13-44 | checking chunk by chunk with the carried stamp finds the fault the whole axis has |
| `TimeAxis.PassesExactly` | src/time_ops.rs:13-44 | an axis passes if and only if it is valid, finite and non-decreasing |
| `TimeAxis.Cut` | src/time_ops.rs:227-253 | the samples kept are exactly those in the closed interval |
| `TimeAxis.StepHoldIndex` | src/time_ops.rs:703-713 | the last sample not after the instant, or the first |
| `TimeAxis.UnionInRange` | src/time_ops.rs:545-596 | merge loop, early break and tails return, strictly increasing, exactly both ends and every stamp strictly between |
| `Decimation.KeptPoints` | src/view.rs:225-242 | a column shows its first, last, a lowest, a highest and a gap sample, each once, by index |
| `Decimation.ViewRises` | src/view.rs:203-242 | the view's samples are in the window and their indices strictly increase |
| `Decimation.ColumnIsSlice` | src/view.rs:211-216 | a sample is in column c if and only if its time lies in that equal slice of the window |
| `Decimation.ViewExactly` | src/view.rs:203-242 | a sample is shown if and only if in its slice of the window it is the first, the last, the first at the least value, the first at the greatest, or the first gap |
| `Decimation.ColumnPeaksShown` | src/view.rs:203-242 | for every sample of a slice of the window a shown one of that slice at most as large and one at least as large, for a gap a gap |
| `Decimation.PeaksShown` | src/view.rs:203-242 | a sample at the window's least finite value is shown, and one at its greatest |
| `ViewWindow.Bucket.Push` | src/view.rs:86-99 | a bucket's fields are the first, last, lowest, highest and gap sample of all that was pushed |
| `ViewWindow.WindowIsRequestedExactly` | src/view.rs:195-202 | the clipped window is the requested one, if and only if not both bounds are the same infinity |
| `ViewWindow.ViewAtInfinity` | src/view.rs:195-202 | run on a second of two samples with the window from +inf to +inf, both samples are shown though none was asked for |
| `ViewWindow.ScanExtent` | src/view.rs:184-191 | the first pass succeeds if and only if the joined axis is sound and gives its extent and count |
| `ViewWindow.ReadView` | src/view.rs:171-244 | the view is a function of the joined samples, however they arrive in chunks; the budget check and the error cases; and the points are exactly the samples that stand out in a slice, in order |
| `ViewWindow.PointsAre` | src/view.rs:184-191 | point i is sample i of the joined chunks: its time and its value |
| `ViewWindow.ViewKeepsPeaks` | src/view.rs:171-244 | at most `max_points` samples of the window, in order, with its first, last, extremes and a gap for every slice that has one |
| `ViewWindow.SoundViewShows` | src/view.rs:171-244 | the view of any sound chunks shows a sample if and only if it stands out in its slice of the window |
| `JoinedValues.AppendKeepsSamples` | src/multi_ops.rs:490-574 | samples of one shape join and every sample is found again, delimited as it was; other shapes are refused |
| `JoinedValues.SamplesAreAll` | src/multi_ops.rs:490-574 | the samples of a value sequence, one after another, are all of its bytes |
| `JoinedValues.AppendValidity` | src/multi_ops.rs:467-483 | the joined mask is as long as the samples and tells of each what its own mask told |
| `JoinedValues.PlaceMaster` | src/multi_ops.rs:256-287 | each file's axis is a rigid shift of its own |
| `JoinedValues.JoinedTimes` | src/multi_ops.rs:256-287 | each joined timestamp in terms of the files' own: its own time and the file's offset, or, for a file that would overlap, the last time before it, one interval and the distance from the file's first |
| `JoinedValues.JoinedAxisNonDecreasing` | src/multi_ops.rs:256-287 | non-decreasing axes join to a non-decreasing one |
| `JoinedValues.StartsBehind` | src/multi_ops.rs:270-282 | a file begins strictly after the one before it if and only if it does so unshifted or its interval is positive |
| `JoinedValues.PushedOntoLast` | src/multi_ops.rs:270-282 | an axis that is pushed onto the last timestamp of the file before it |
| `Concatenate.CheckSameStructure` | src/multi_ops.rs:436-460 | accepted if and only if every file has as many groups, each with the same multiset of names |
| `Concatenate.SameNamesExactly` | src/multi_ops.rs:436-460 | two groups agree if and only if every name belongs to as many channels in one as in the other |
| `Concatenate.SortedNamesAgree` | src/multi_ops.rs:436-460 | comparing sorted names is comparing multisets |
| `Concatenate.MatchNames` | src/multi_ops.rs:232-252 | on a checked group the greedy matching never comes up empty and is a bijection |
| `Concatenate.SelectedByName` | src/multi_ops.rs:232-252 | the channel taken from each file for a slot has that slot's name, none is taken twice, and those of one name are taken in order |
| `Concatenate.EarliestIsOne` | src/multi_ops.rs:417-433 | the start all offsets are measured from is the start of one of the files |
| `Concatenate.OffsetIs` | src/multi_ops.rs:417-433 | a file's offset is its header's distance in seconds from the earliest header, or zero as recorded |
| `Concatenate.ResultTimes` | src/multi_ops.rs:207-320 | the times of a joined channel are those, file after file |
| `Concatenate.ExtendHolds` | src/multi_ops.rs:289-303 | appending a file's series leaves the earlier samples and their validity as they were |
| `Concatenate.JoinGroup` | src/multi_ops.rs:218-320 | every file's samples are found in the joined channels, at the right place with the right time and validity; it fails only for differing types |
| `Concatenate.ResultLengthsAgree` | src/multi_ops.rs:306-316 | timestamps, values and flags of every joined channel agree in number |
| `Concatenate.ResultNonDecreasing` | src/multi_ops.rs:207-320 | with non-decreasing inputs every joined axis is non-decreasing |
| `Concatenate.ConcatenateFiles` | src/multi_ops.rs:207-320 | the whole call: refused for no file, a structure that differs or a channel typed differently, otherwise group after group |

## Left out

- I/O: a file is a byte sequence; memory maps, range requests, read errors, locks and atomics are not modelled, the caches are used by one caller at a time, and the LRU clock does not wrap at 2^64.
- Compression: deflate, zstd and LZ4 are any pair of functions of which one undoes the other; `FileLayout.PayloadReadsBack` assumes that of them.
- Floating point: a time the writer sorts is its 64-bit pattern under the order of `total_cmp`; elsewhere times and values are reals beside tags for infinities, gaps and non-finite stamps, so rounding of sums and of column numbers is not modelled.
- `SampleFormat::of` and the evaluation of conversions: the mapping from typed values to bytes is taken as data of the channel, and a channel's conversion block is tied to its rule by `Conversions.PlanOf`.
- Conversions of types 6 and 8 to 11, which the writer refuses: reading them gives `OtherKind` here. Formula parsing and the comment in XML are parameters; texts are UTF-8, so the lossy decoding changes nothing; parsed blocks are not cached.
- Overflow checks are off, as in a release build: sizes and offsets of arrays wrap at 64 bits.
- Text of errors and warnings, block summaries and link labels; the order in which referrers are listed.
- The fixed-stride sample count of `index_records`, and the limit that decides whether a stream is kept, which is a parameter here.
- CAN scaling, labels and message lookup by identifier or parameter group (`message_index`), and `apply_extended_multiplex`: plain lookups.
- The AES code's 32-bit words are four bytes here.
- `element_values`, text views and channels without a master in `view.rs`; resampling, interpolation and `combine_validity` in `time_ops.rs`; `stack` in `multi_ops.rs`.
- FileSamples.SampleReadsBack: is stated for records below 4 GiB, which is what the file's 32-bit fields can say, and, in a shared data group, for groups whose record IDs suffice; what happens to the others is `Interleaving.ReadsBackExactly`.
- Streaming.SignalChunks.Next: read errors, and payloads kept in a signal data block of their own, are left out.
- StreamingRefines.SignalsChunks.Next: read errors, and payloads kept in a signal data block of their own, are left out.
- StreamedPayloads.ReadBothWays: is stated for blocks that show all their bytes and hold their payload records whole; a payload record that runs past its block is indexed by the whole read and dropped by the chunks. The offset a record carries is any function of its bytes, and whether samples come back as bytes or as text is left out.
- ViewWindow.ReadView: channels without a master or a validity mask, and the choice of an array element, are left out.
- Multiplex.ReadingsTell: where a present signal cannot be read, the readings may be right by the order of the signals alone; `Multiplex.DecodesTrulyExactly` covers every frame by asking the memo as well.
- ScrambleLaws.SecondRunChangesNothing: one way; when a stray link does become a block the second run may or may not change the file. It and the other laws are for listings below the walk's cap of two million blocks.
- Streaming.SeparateInvalidationIsCut: is stated for a plain main block that holds whole records; the exact condition for any block is `Streaming.BlockSeenWholeExactly`.
- MD5 and key derivation, DBC, ARXML and LDF parsing, bus frame readers, MDF 3, exports, the GUI and the command line.
