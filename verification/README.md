# valkey-ftdc write path in Dafny

A model of the delta-metrics write path of valkey-ftdc and proofs about it. A sample is collected from
INFO text and printed as JSON (`src/collector.c`), flattened to a table of counters and encoded as a
checkpoint, a restart with a checkpoint, or a delta (`src/delta.c`), and appended line by line to a
rotating file in a size-limited directory (`src/writer.c`, `src/rotation.c`), while commands change the
configuration (`src/ftdc.c`).

Verify with `dafny verify dfyconfig.toml` (Dafny 4.11).

## How the model is built

| modules | what they hold |
|---|---|
| `CText`, `JsonText` | C strings, strtoll, strtod's end pointer, `%lld`; what the hand-written scanner accepts |
| `Json`, `Flatten`, `FlattenJson` | JSON values and their text; the flattener; the flattener against JSON values |
| `Metrics`, `Buffers`, `FlatParser` | the growable table, the growable buffer and the parser over a shared path buffer, in place |
| `Encoder`, `Reader` | the delta encoder; a reader of record lines, which the repository does not ship |
| `Collector`, `Sample`, `Payload` | the INFO printer in place; whole samples; which INFO text is accepted |
| `Metadata`, `Rotation` | the metadata line printed from a server reply; retention |
| `Writer`, `FtdcWriter` | the writer as a state machine over runs; the module's state in place |
| `Runs`, `Theorems`, `Files`, `Framing`, `FileReplay`, `EndToEnd` | what holds over every run |
| `Decision`, `Oldest`, `Opening`, `Commands` | what an append writes and when, which files retention removes, which file a rotation opens, what the commands set and when an append fails: told without the functions that decide it, by names, times, sizes and texts |
| `Counters`, `Identities` | which counters and which identity a sample has, by the names INFO has for them |
| `Formats`, `CLaws` | every text that is written, letter by letter; the small functions spelled out |
| `Limits`, `Witnesses` | where promises end: exact conditions, and the inputs and runs that show it |

Code that the source runs step by step is a method or a class whose contract ties it to a function; the
properties are proved about the functions. A run is any sequence of appends, rotations, flushes, path
changes, delta-mode toggles and limit changes, and a state is reachable when some run from some
configuration and some files on disk ends in it; every answer of the operating system and the server
(clock, directory, file, memory, write, flush, listing, unlink, CONFIG GET) comes in with the operation
and is arbitrary. Memory can fail at every growth of the flattener's table, which drops a counter
silently, when a record is built, which is an error, and at every growth of the encoder's table, which
leaves a prefix. The writer's `log` records, in order, each header, each record line, each failed write
with the kind of record it lost, each failed flush and each segment reset.

The main line of results is:

1. the parser computes the flattener, and the flattener accepts the printed text of a JSON value exactly
   when the value is within the limits, and then finds the last integer at each monotonic dotted path;
2. the printer writes the text of a JSON value for every INFO payload, so printer and flattener compose;
3. each record reads back as what the encoder meant (for deltas: exactly when no path needs escaping);
4. over every run the reader's values agree, for every recorded sample, with every counter that found
   memory in the flattener, and with every counter if the record is a checkpoint, starting from the
   header of the file, or from any checkpoint on a line of its own, and knowing nothing else, even when
   the encoder's table ran out of memory halfway; all values and differences stay in 0..2^63-1;
5. so reading the open file from its first byte on, torn lines and older blocks included, gives the
   counters of the last sample, and a line of INFO such as `total_commands_processed:17` or
   `slave0:...,offset=17,...` reaches the reader, by name;
6. what is written is fixed from both sides: in every reachable state a sample gets a delta exactly when no
   checkpoint is asked for, its process is the same and no counter is new or went down, and over a steady
   run the checkpoints come exactly when the interval has passed;
7. a rotation opens a file of its own, closed files keep their contents to the byte until retention takes
   them, and retention takes the oldest first, enough of them and no more than it has to.

Points where the unconditional statement is false of the code are stated with their exact condition, and
with an input or a run that shows it:

- a checkpoint record of an object without members does not parse (`CheckpointSplice`, `EmptyObject`);
- control bytes other than newline, carriage return and tab, numerals with `+`, and numerals without a
  digit before the point make the flattener reject the sample (`QuoteScans`, `NumeralIsNumber`,
  `InfoFlattens`);
- paths with a quote or backslash make a delta unreadable (`DeltaReadsExactly`, `QuotedPath`,
  `QuotedInfo`);
- a difference that was lost stays missing in every later delta: over a segment the reader is off by the
  sum of the lost differences (`DiffsShift`, `LostDifferences`, `LostWriteStays`);
- a counter that finds no memory in the flattener is dropped without an error: after a delta the reader
  is right about the sample exactly when it already was about the dropped counters, and the next sample
  in which the encoder sees one of them gets a checkpoint (`DroppedCounters`, `LeftOutForcesCheckpoint`,
  `DroppedCounterStays`);
- differences wrap around only for negative counters (`DifferenceExact`);
- snapshot mode writes an empty line instead of a sample that does not fit the file opened for it
  (`SnapshotAppends`, `SnapshotCanBeLost`);
- README.md of the repository says at line 104 that the first record in every new file is always a
  checkpoint. In every reachable state, after a header or anything else, and with no rotation first, what
  an append adds first is a checkpoint exactly when delta mode is on, its write succeeds, and either a
  checkpoint is pending (nothing of delta mode was written or lost since a header after which retention
  worked, or since a reset) or the encoder would neither write a delta nor find a process boundary
  (`NextIsCheckpoint`). Otherwise a file can start with a delta (`FirstRecordCanBeDelta`,
  `FirstRecordCanBeLost`), with a restart (`FirstRecordCanBeRestart`), or, since the toggle of delta mode
  does not rotate, with a raw sample (`FirstRecordCanBeRaw`).

## Model

| member | source | states |
|---|---|---|
| Decision.WhatIsWritten | src/delta.c:626-679 | in every reachable state, for every sample appended in delta mode with no rotation and no failure: which records are written and their text letter by letter: a checkpoint if one is pending, no process is known or the interval has passed; else a restart with its reason and a checkpoint if run id, process id or uptime say so; else a delta of just the counters that moved if every counter was there before and none went down; else a checkpoint; and what the encoder then knows |
| Decision.EncoderGoesOn | src/writer.c:75-91 | table, identity and checkpoint time of the encoder move on with every accepted sample, whatever becomes of the writes |
| Decision.SteadyDelta | src/delta.c:626-669 | told by the log alone: after a checkpoint or delta of the same process, younger than the interval counted from the segment's checkpoint, with no counter new or lower, exactly one delta is written |
| Decision.Cadence | src/delta.c:626-664 | over every steady run from the opening of a file, each sample adds one record; the first is a checkpoint, and each later one a checkpoint exactly when the interval has passed since the last, else a delta |
| Decision.DiffsMoved | src/delta.c:532-549 | a delta lists just the counters that moved, each by how much in 64 bits, in the order of the sample |
| Counters.ShownReachesReader | src/delta.c:267-291 | whatever run came before, after a collected sample was appended in delta mode without an error the reader holds the integer of the last line of each of the seven counters of the stats section, of `master_repl_offset`, and of the last `offset` field of each replica, if it found memory or the record is a checkpoint |
| Counters.ShownIsFlattened | src/delta.c:267-291 | those integers are in the table of every accepted sample, at the paths the flattener has for them |
| Counters.TrackedExactly | src/delta.c:267-291 | a path is tracked exactly when it is one of the seven of stats, the replication offset, or starts like a replica and ends in `.offset` |
| Counters.AcceptedTracked | src/delta.c:327-332 | whatever text is accepted, its table has only such paths |
| Counters.NotShown | src/collector.c:237-272 | a key no line has, or continues after a dot, has nothing in the table |
| Identities.CollectedClock | src/collector.c:417 | the timestamp of an accepted collected sample is the server's clock in milliseconds, and its identity is valid |
| Identities.CollectedProcess | src/delta.c:343-353 | its process id is the integer of the last `process_id` line of the server section |
| Identities.CollectedUptime | src/delta.c:343-353 | its uptime is that of the last `uptime_in_seconds` line |
| Identities.CollectedRunId | src/delta.c:334-341 | its run id is the text of the last `run_id` line, cut to 127 bytes |
| Identities.CollectedRole | src/delta.c:334-341 | its role is the text of the last `role` line of the replication section, cut to 31 bytes |
| Opening.RotationOpens | src/rotation.c:211-259 | a rotation that works opens `<path>/metrics.<stamp>.vkftdc`; its contents are what that name held and the header, just the header for a new name; of all other files only `metadata.<stamp>.json` changes, and retention may take some of the module's |
| Opening.RotationUnswept | src/writer.c:19-37 | the same when only retention fails: the file is open, an error is reported, and no checkpoint is asked for |
| Opening.RotationFails | src/writer.c:19-37 | a rotation that cannot open a file leaves nothing open, an error, encoder and log alone, and at most a part of a header on the disk |
| Opening.StampsSeparate | src/rotation.c:216-229 | under one path two rotations open the same file exactly when their stamps are the same, and never a metadata file |
| Opening.StepKeeps | src/writer.c:49-105 | one operation leaves every file but the open one and those it opens as it was, or removes it if it has a name of the module |
| Opening.ClosedFilesStay | src/writer.c:39-47 | over every run, a closed file whose name no later rotation opens keeps its contents to the byte while it is there, and does not come back |
| Oldest.OlderGoFirst | src/rotation.c:277-283 | of the module's files that can go, none goes before one that is older by its modification time, or as old and before it by its path |
| Oldest.EnoughGoes | src/rotation.c:332-339 | after a retention run the sizes of the files left are within max-dir, or all that could go went |
| Oldest.NoMoreGoes | src/rotation.c:332-339 | with the last file that went, the files left would be above max-dir |
| Oldest.OnlyOurs | src/rotation.c:299-341 | only listed regular files with the module's names go, never the open one; without a limit or a listing nothing does |
| Commands.DeltaErrors | src/writer.c:49-105 | in every reachable state an append in delta mode reports an error exactly when something it needs fails: a file, the sample, memory, a write (that of a restart only if one is due), the flush, retention |
| Commands.RecordsInFile | src/writer.c:39-47 | an append in delta mode with no rotation and no failure puts its records at the end of the open file, a line each, counted in full |
| Commands.LimitCommands | src/ftdc.c:308-316 | each limit has its own command, unit and least value, and moves nothing else |
| Commands.PathCommand | src/ftdc.c:300-303 | a path change forgets all but the last checkpoint time, takes the new path over even if nothing opens there, and otherwise opens a file under it with its header |
| Commands.ToggleCommand | src/ftdc.c:332-335 | the delta-metrics toggle forgets as much and leaves the open file open |
| Commands.Defaults | src/ftdc.c:15-33 | what the module starts with |
| Theorems.Replay | src/delta.c:591-680 | in every reachable state, at each checkpoint or delta, reading the lines before it and the record gives every counter of that sample that found memory in the flattener, and every counter at a checkpoint, if since the header of the file or the last checkpoint on a line of its own nothing was lost and the counters need no escaping and are not negative |
| Theorems.ValuesInRange | src/delta.c:532-549 | there, everything the reader holds, vanished counters included, is in 0..2^63-1, and every delta reads as differences in 1..2^63-1 |
| Theorems.AppendReplays | src/writer.c:49-105 | whatever run came before, after an append in delta mode without an error the reader holds every counter of the very sample appended that found memory in the flattener, and every counter if it went as a checkpoint |
| Reader.DroppedCounters | src/delta.c:327-354 | after a delta the reader is right about the whole sample exactly when it already was about the counters the flattener dropped |
| FileReplay.FileRecovers | src/writer.c:39-47 | over every run on one-line samples, reading every line of the open file from its first byte on gives the counters of the last sample (those seen, and all at a checkpoint), if since the header there was a checkpoint on a line of its own and nothing failed since that checkpoint |
| EndToEnd.CountersReachReader | src/collector.c:237-272 | after a collected sample was appended, the reader of the log holds, at every monotonic path where INFO shows an integer as the last `key:integer` of its key or the last `name=integer` of its name, that integer, if it found memory or the record is a checkpoint |
| EndToEnd.InfoReachesReader | src/collector.c:410-442 | the same for the integer of the last line of a section with a leaf at the path |
| EndToEnd.CollectedMetric | src/collector.c:410-442 | a collected sample is accepted exactly when within the limits, and the table then holds, per monotonic path of a section, the integer of the last line with a leaf there; other sections, latency, slow log and host add nothing |
| Theorems.Segments | src/delta.c:553-567 | inside a segment, through deltas written or lost, failed flushes and headers after which retention failed, run id and process id are constant, uptime never decreases, the set of counters the encoder sees only shrinks and none of them decreases |
| Theorems.RecordOrder | src/delta.c:626-664 | a delta or restart comes directly after a checkpoint or delta, a restart is directly followed by a checkpoint; the exceptions are a failed write and a header after which retention failed |
| Theorems.FirstRecord | src/writer.c:19-37 | the first thing of delta mode, written or lost, in a file opened well, and the first after a path change or toggle, is a checkpoint |
| Theorems.CheckpointInterval | src/delta.c:626-630 | every delta in every reachable state counts from a checkpoint; if a positive interval is in force and that checkpoint is on disk, the delta is less than the interval younger than it, whatever writes and flushes failed since |
| Theorems.SegmentStart | src/delta.c:652-664 | the checkpoint a delta counts from is followed by nothing but deltas, written or lost, failed flushes and headers after which retention failed |
| Theorems.RejectedSample | src/delta.c:616-619 | a sample the flattener rejects, or whose records find no memory, writes nothing and leaves table, identity and checkpoint time alone |
| Runs.ReachableGood | src/ftdc.c:296-338 | in every reachable state the log is in order, and unless a checkpoint is pending the encoder's table is a submap of what a reader of the log knows |
| Runs.StepGood | src/ftdc.c:300-338 | every append, rotation, path change, toggle and limit change keeps that invariant, whatever the operating system answers |
| Reader.EncodeReplays | src/delta.c:591-680 | one encoder step on clean counters: reading its records turns any values that hold the old table (or any values, if a checkpoint is written) into values that hold the counters that found memory and the new table, and all counters at a checkpoint |
| Reader.DeltaReadsExactly | src/delta.c:526-551 | a delta line reads back as its timestamp and differences exactly when no path holds a quote, backslash or NUL |
| Reader.DiffsShift | src/delta.c:532-549 | a delta moves the reader's value of each counter by just what the counter moved; it is right afterwards exactly when it was right before |
| Reader.DiffsInRange | src/delta.c:538-541 | between tables of clean counters every printed difference is in 1..2^63-1 |
| Reader.RestartReads | src/delta.c:515-524 | every restart record is recognised and changes nothing |
| Reader.UnescapedScans | src/delta.c:546 | text printed between quotes as it is scans back to itself exactly when it needs no escaping |
| Flatten.CheckpointSplice | src/delta.c:505-513 | for every text starting with a brace, the checkpoint record flattens to what the sample flattens to if the object has a member, and is rejected if it has none |
| Flatten.FlatSampleSound | src/delta.c:327-355 | whatever text is accepted, the table has distinct, untruncated, monotonic paths and 64-bit values |
| Flatten.FlatValue | src/delta.c:359-418 | the recursion ends, and every success leaves strictly less text |
| FlattenJson.FlatPrinted | src/delta.c:359-467 | for every printable value, path and text after it (that ends a number, after one): accepted exactly when within the limits, consumes just its text, notes exactly the leaves of the value |
| FlattenJson.FlatSpread | src/delta.c:359-467 | the same with any white space between the tokens |
| FlattenJson.FlattenedMetric | src/delta.c:469-477 | the table is the last-wins map of the integer leaves with a monotonic path, which `Counters.TrackedExactly` names |
| FlattenJson.NotedIdentity | src/delta.c:334-353 | each identity field comes from the last leaf at its path, truncated to its buffer; validity from the presence of four of them |
| FlattenJson.NumberFlattens | src/delta.c:382-403 | every number of section 6 of RFC 8259 is read whole, as its saturated integer or as a float |
| Json.SkipPrinted | src/delta.c:165-265 | inside arrays, the text of a value is skipped exactly when its strings and keys fit 255 bytes and its bytes and numbers are readable, and just that text is consumed |
| Json.SkipSpread | src/delta.c:165-265 | the same with any white space between the tokens |
| Json.QuoteScans | src/collector.c:67-98 | quoting and scanning are inverse on every string without control bytes but newline, carriage return and tab; every other quoted string is rejected |
| FlatParser.ParseFlatSample | src/delta.c:469-477 | the parser over cursor, shared path buffer and growable table accepts what the flattener accepts, with its identity and a part of its counters that lacks no more than there were refused reallocations; with none refused it computes the flattener |
| FlatParser.FlatSampleBuilder.RecordNumber | src/delta.c:327-355 | notes a number; a counter whose reallocation is refused is dropped, without an error |
| FlatParser.ParseFlatObject | src/delta.c:420-467 | computes the flattener on the object and puts the path buffer back |
| FlatParser.ParseFlatValue | src/delta.c:359-418 | computes the flattener on the value, and leaves the path buffer as it was |
| FlatParser.PushKey | src/delta.c:432-445 | extends the path buffer by the key, in bounds, exactly when key and path fit |
| FlatParser.ParseJsonString | src/delta.c:108-163 | decodes a string literal into the buffer, in bounds, exactly when it is well-formed and fits |
| FlatParser.SkipJsonValue | src/delta.c:231-265 | skips one value |
| Metrics.MetricTable.Store | src/delta.c:293-314 | updates the table like a map, grows it keeping its contents, fails only without memory and then changes nothing |
| Metrics.MetricTable.Lookup | src/delta.c:316-325 | finds what the table holds for the path |
| Metrics.MetricTable.ReplaceAll | src/delta.c:495-503 | leaves a prefix of the new counters: all of them, or as many as the capacity reached when a realloc fails, after any number that succeeded |
| Metrics.GetSet | src/delta.c:293-325 | set and get are map update and lookup for paths that fit their buffer |
| Metrics.SetDistinct | src/delta.c:293-314 | paths stay unique |
| Encoder.DeltaEncoder.EncodeSample | src/delta.c:591-680 | computes the encoder step on the counters that found memory in the flattener, with the capacity the table could grow to; it fails exactly when the sample is rejected or building its records finds no memory, and then leaves the state alone |
| Encoder.DeltaEncoder.BuildDelta | src/delta.c:526-551 | prints the differences of the counters that changed, comma-separated |
| Encoder.DeltaEncoder.Decide | src/delta.c:626-650 | computes the encoder's choice of record and its restart; what that choice is, `Decision.WhatIsWritten` says |
| Limits.LeftOutForcesCheckpoint | src/delta.c:642-664 | a counter left out of the table forces the next sample in which the encoder sees it to be a checkpoint, through any samples in which it does not, rotations and resets in between |
| Limits.LeftOut | src/delta.c:495-503 | a counter is left out if the flattener dropped it or the table could not keep it |
| Limits.LostDifferences | src/delta.c:532-549 | through any deltas of a segment, written or lost, what the reader is off by grows by just the sum of the lost differences |
| Limits.NextIsCheckpoint | src/writer.c:49-87 | in every reachable state, what an append without a rotation adds first is a checkpoint exactly when delta mode is on, its write succeeds, and a checkpoint is pending or the encoder would neither write a delta nor find a process boundary |
| Witnesses.FirstRecordCanBeDelta | README.md:104 | a concrete run with failed retention whose new file starts with a delta |
| Witnesses.FirstRecordCanBeRestart | README.md:104 | a concrete run with failed retention and a new process whose new file starts with a restart |
| Witnesses.FirstRecordCanBeLost | README.md:104 | a concrete run with retention working and the first write failing whose file starts with a delta |
| Witnesses.FirstRecordCanBeRaw | src/ftdc.c:332-335 | a concrete run with everything working whose file, opened in delta mode, starts with a raw sample, since the toggle does not rotate |
| Witnesses.LostWriteStays | src/writer.c:75-87 | a concrete run in which a delta is lost: the counter is 3 and the reader has 2 |
| Witnesses.DroppedCounterStays | src/delta.c:343-355 | a concrete run in which a counter finds no memory: it is 2, an empty delta is written without an error, the encoder forgets it and the reader has 1 |
| Witnesses.SnapshotCanBeLost | src/writer.c:69-79 | with max-file-mb 1 every sample of a megabyte or more becomes an empty line, without an error |
| Witnesses.EmptyObject | src/delta.c:505-513 | {} is accepted and its checkpoint record is not |
| Witnesses.QuotedInfo | src/collector.c:203-233 | a replica line of INFO with any name, quotes included, is a counter at its path |
| Witnesses.QuotedPath | src/delta.c:546 | a monotonic path with a quote exists for every name with one, and its delta does not read back |
| Limits.DifferenceExact | src/delta.c:538 | the printed difference is the true one exactly when it fits a long long |
| Collector.AppendValue | src/collector.c:147-154 | appends the text of the JSON value the raw text stands for |
| Collector.AppendCompound | src/collector.c:156-235 | all or nothing: accepts exactly the compound values, prints one as its object, and leaves the buffer alone otherwise |
| Collector.IsNumberText | src/collector.c:114-142 | accepts exactly an optional sign and digits without leading zero with an optional fraction, or a bare fraction; its last guard never decides |
| Formats.NumeralGrammar | src/collector.c:114-142 | the grammar of those numerals, both ways |
| Formats.NumberRead | src/delta.c:382-403 | an integer ends at the first character that is no digit; digits and signs behind it are passed over; a point or an exponent there makes the whole a float |
| Collector.AppendInfoSection | src/collector.c:237-272 | appends the text of the object of the lines of the payload |
| Collector.AppendJsonString | src/collector.c:67-98 | appends the quoted string |
| Formats.EscapeTable | src/collector.c:73-95 | how each character is escaped |
| Formats.UnescapeTable | src/delta.c:119-147 | what each escape stands for when it is scanned |
| Sample.NumeralIsNumber | src/collector.c:114-142 | a classified numeral is a number of section 6 of RFC 8259 exactly when it has no plus sign and a digit first |
| Payload.InfoFlattens | src/collector.c:237-272 | for every payload, path and any text after it, what the printer wrote is accepted exactly when each line of the payload has its keys, paths and identity strings within the limits, no excluded bytes and no excluded numeral |
| Payload.NestingAtMostTwo | src/collector.c:147-235 | what is printed for a value is a scalar or an object of scalars |
| Sample.CounterLine | src/collector.c:252-268 | a line `key:integer`, of either sign, is one integer leaf at its dotted path |
| Sample.CompoundLine | src/collector.c:203-233 | the last `k=integer` of a compound value, of either sign, is the integer two levels down |
| Sample.CollectSample | src/collector.c:410-442 | computes the text of one JSON object built from clock, sections and the other collectors' values |
| Formats.SampleText | src/collector.c:410-442 | that text: the clock, the nine sections in their order, latency, slow log and host, under their names |
| Formats.InfoText | src/collector.c:237-272 | the text of a section: a member for each `key:value` line but those that start with a number sign or a carriage return, in order |
| Formats.InfoValueText | src/collector.c:147-154 | the text of a value: yes and no as booleans, numerals as they are, lists of fields as objects, anything else as a string, without the white space around it |
| CLaws.PairsAtEquals | src/collector.c:175-196 | a field is what is before its first equals sign and what is after it, both trimmed, if neither is blank |
| CLaws.SplitsJoined | src/collector.c:237-250 | a text is taken apart into the pieces it is joined of; an empty piece behind the last separator is left out |
| Rotation.Retention | src/rotation.c:285-342 | the files removed are the shortest prefix, in the order of the comparison, of the deletable ones that meets the limit; otherwise all of them |
| Rotation.VictimsAreOurs | src/rotation.c:300-341 | only listed regular metrics and metadata files go, never the open file |
| Rotation.CompareOrders | src/rotation.c:277-283 | the comparison is a total order on files with distinct paths |
| Rotation.SortSorts | src/rotation.c:331 | the sorted files are an ordered permutation |
| Rotation.Sweep | src/rotation.c:332-339 | total is the sum of the sizes not yet unlinked |
| Rotation.EnforceRetention | src/rotation.c:285-342 | removes just those files |
| Files.EnforceBounds | src/rotation.c:285-342 | after retention with a truthful listing the module's files in the directory total at most the limit, or only the open file and ones that cannot be unlinked are left |
| Files.AppendBounds | src/writer.c:99-104 | an append without an error ends with a retention run, so the directory is bounded then |
| Files.RotateBounds | src/writer.c:30-36 | so it is after a rotation without an error |
| Files.ReachableTracked | src/ftdc.c:300-303 | in every reachable state an open file is under the configured path, on disk, counted to its exact size and ending with what the log says unless torn, and, torn or not, its lines end in the records since the last checkpoint on a line of its own |
| Files.EnforceSparesOpen | src/rotation.c:332-339 | no retention run touches the open file |
| Files.BlockSplits | src/writer.c:39-47 | a block of a header of two lines and of one-line records splits at newlines into magic, metadata and the records in order |
| Files.SnapshotAppends | src/writer.c:49-105 | in every reachable state in snapshot mode, an append reports an error exactly when a call or the copy of the sample fails, and otherwise adds one line: the sample, verbatim and counted in full, with the file below the limit, exactly when the sample fits; an empty one otherwise. The file ends with the line and has the counted size unless torn |
| Files.FitsWithOneClock | src/rotation.c:261-275 | with one clock reading per append, it fits exactly when no rotation came first, there is no limit, or it fits behind the header of the file to be opened |
| Files.TestPredictsSize | src/rotation.c:261-275 | in every reachable state with nothing torn, no rotation is asked for exactly when a file is open that is not too old and that would be below the limit with the line written to it |
| Framing.CollectedIsTidy | src/collector.c:67-98 | a collector-built sample stays on one line whole, as a delta and as a restart, from any INFO text and whatever the other collectors print |
| Framing.CollectedRuns | src/collector.c:410-442 | every run on collected samples is a run on one-line samples |
| Framing.OpenFileSplits | src/writer.c:39-47 | over every run on such samples the open file ends with a block that splits into exactly its header and records |
| Framing.MetadataOneLine | src/rotation.c:67-104 | whatever the server answers to CONFIG GET, the metadata is one line |
| Metadata.WriteMetadata | src/rotation.c:191-209 | prints the text of one JSON object with the reply in it |
| Formats.MetadataLine | src/rotation.c:191-209 | its text: format version 2 in delta mode and 1 otherwise, schema version 1, mode, module, compression, time and reply, in this order |
| Metadata.WriteReply | src/rotation.c:106-189 | prints the text of the JSON of the reply, for every reply |
| Formats.ReplyText | src/rotation.c:106-189 | the text of each kind of reply |
| Metadata.MapOrList | src/rotation.c:126-156 | a map and the flat list of its keys and values give the same JSON |
| FtdcWriter.FtdcState.AppendSample | src/writer.c:49-105 | computes the append of the state machine, and reports an error exactly when it left one |
| FtdcWriter.FtdcState.RotateFile | src/writer.c:19-37 | computes the rotation; succeeds exactly when directory, file, header and retention do |
| FtdcWriter.FtdcState.OpenNextFile | src/rotation.c:211-259 | opens the file with its header, printed from the server's reply, or leaves what the failing call leaves |
| FtdcWriter.FtdcState.ConfigPath | src/ftdc.c:300-303 | path change: segment reset, then rotation |
| FtdcWriter.FtdcState.ConfigDeltaMetrics | src/ftdc.c:332-335 | toggle: segment reset |

## Left out

- Encode: which counters the flattener drops is any part of the sample's counters, in any order; the parser in place shows which parts refused reallocations lead to. A failed allocation of the delta state or of a record's text is one answer for the whole step, `built`, since all of them end in the same error.
- Diffs: a difference outside 64 bits is undefined in C and wraps around in the model.
- Due: so does the age of the last checkpoint.
- FtdcState: a sample that cannot be collected for want of memory leaves only an error text, and is not modelled; statistics counters, timer and error text are left out; only whether an error is pending is kept.
- AppendJsonString: spans of a text (pointer and length) are modelled as strings.
- Sort: qsort is an insertion sort with the same order.
- CollectSample: the latency, slow log and host parts come in as JSON values; fetching them, `src/hoststats_linux.c` and `src/redact.c` are not part of this model.
- OpenNextFile: the stamp comes in as text; timestamp formatting is not modelled.
- ReplyJson: a double comes in as its printed text, made of the characters "%.17g" prints; a map key is a string.
- Open: the sidecar file comes in as text and is written in one piece or not at all.
- Extend: a file is a string; standard I/O buffering shows only as a write or flush that fails. A failed write leaves any text in the file; a failed flush leaves all of it, and nothing is claimed that depends on that: sizes and blocks not before the next header, the reading of the file not before the next checkpoint on a line of its own.
- FlatSpread: the white space between tokens is any, but the same at every place of a value.
- Disk: directories are told apart by their path text, so two spellings of one directory count as two.
- Config: only the settings that move the write path; `enabled`, `interval-ms`, redaction and collection switches, FTDC.STATUS and CONFIG GET are left out.
- Wrap-around of file sizes and byte counters at 64 bits is left out.
- Locale: white space, digits and the decimal point are those of the C locale.
