# Arcadia TIO OCB core: a Dafny model

This project models the algorithmic core of the OCB (ordered column bundle) reader and
proves what it is for.

**The bounded ordered scheduler.** A fixed pool of workers reads and prepares row groups
through a bounded FIFO task queue and a bounded result channel; one coordinator puts the
results back in order and hands them to a callback, in a sliding window or window by
window. `Scheduler.dfy` is the step relation: one coordinator, any number of workers,
program counters as fine as the shared accesses (a queue operation, the notification that
follows it, taking a progress snapshot and blocking on it are separate steps), and the
two buffer-slot writes of the reusable visitors. `SchedulerSpec.dfy` is the plain
sequential loop and the window-by-window loop. The other `Scheduler*.dfy` files prove the
invariants, and `SchedulerTheorems.dfy` the results over every run; `EffectForm.dfy` gives
the promised effect in closed form and `SchedulerReport.dfy` what the reported counts and
peaks mean. `Wakeup.dfy` models the
progress signal below the level of those steps, under any clients; `TaskWait.dfy` the
condition variable workers sleep on; `TaskQueues.dfy` the shared queue and counters as
objects; `SerialVisit.dfy` the serial path; `Launch.dfy` how requests become
configurations.

**The compact-L2 codec and its certifiers.** `CompactL2.dfy` and `CompactL2Batch.dfy`
state the 168-byte record, its split into typed lanes and its reconstruction, per row and
per batch; `CompactL2Writer.dfy` the writers that fill byte buffers in place.
`ContinuityScan.dfy` and `PayloadScan.dfy` are the two continuity scans; `PayloadColumns.dfy`
and `Certification.dfy` their loops over row groups and waves with mutable scan state;
`FileCertification.dfy` what an accepted file means; `Fnv.dfy` and `FnvVectors.dfy` the
streaming hash, its laws and known answers;
`CertificationTheorems.dfy` puts both layouts of one payload
stream side by side.

**The binary format.** `Bits.dfy` and `Crc32c.dfy` treat CRC32C as division of
polynomials, `Crc32cVectors.dfy` proves its residue and check value. `OcbReader.dfy` is the cursor, the counted record sequences and the
materialization budget; `OcbStringTable.dfy`, `OcbDictionary.dfy`, `OcbRecords.dfy` and
`OcbDelta.dfy` the objects, each with a pure parser and printer and the two-pass reader
proved against them, `OcbDeltaExact.dfy` which bytes are a delta, and `Utf8Form.dfy` which
are UTF-8; `OcbBootstrap.dfy` the dual-slot page; `OcbLayout.dfy` where every field of
every object sits.

**The reusable pool.** `PoolPreflight.dfy` compares the preflight's arithmetic with what
building the pool allocates.

`Basics.dfy`, `Bytes.dfy`, `Slices.dfy` and `Words.dfy` hold results, little-endian
integers, lemmas on concatenation and machine words.

## Conventions

- `usize` is 64 bits. Integers are unbounded unless wrapping, saturation or a checked
  overflow is part of the behaviour, in which case it is written out.
- Each ordinal's read and prepare outcome is fixed for a run; a panic inside either is an
  error outcome. The commit callback is a function of the whole history of calls, so it
  may keep state. Reading a row group into a slot tears the slot before it fills it.
- The scheduler's loops are steps of a transition system rather than `while` loops: their
  interleaving is the subject. Memory is sequentially consistent.
- Error values keep the error kind and drop the message. Allocation succeeds.
- A 32-bit checksum state is its sequence of bits, least significant first; shifts and
  exclusive or act on that sequence.

## Findings

- The dictionary writer compares `value.len() as u32` with the fixed width, so a
  fixed-width value whose length exceeds the width by a multiple of 2^32 is written and
  then refused on reading; so is a dictionary of 2^32 - 1 values, whose offset count does
  not fit. `OcbDictionary.ParseOfPrint` gives the exact condition,
  `OcbDictionary.TruncatedWidth` and `OcbDictionary.OneValueTooMany` the inputs.
- A windowed run in which a row group fails withholds its whole window, so its calls can
  be fewer than the sequential loop's. `SchedulerSpec.ModesAgreeIff` says exactly when the
  modes agree, `SchedulerSpec.WindowWithholds` gives an input.

## Model

| member | source | states |
|---|---|---|
| `SchedulerTheorems.Refinement` | crates/arcadia-tio-ocb-core/src/parallel_prepare.rs:1064-1317 | every complete run, in either mode, for any worker count, capacities and interleaving, makes exactly the callback calls of the sequential (sliding) or window-by-window (windowed) loop, each shown its own row group's data, ends with that loop's verdict, and reports the committed counts; the workers-ended and duplicate-ordinal errors never appear |
| `EffectForm.EffectOfRun` | crates/arcadia-tio-ocb-core/src/parallel_prepare.rs:1064-1317 | every complete run ends in the closed form of its mode, read off the outcomes and answers alone: call `i` is ordinal `i` with its own value, the callback continued on every proper prefix, and the verdict is its last answer, completion, or the very code of the failing row group |
| `EffectForm.InOrderExact` | crates/arcadia-tio-ocb-core/src/parallel_prepare.rs:1064-1193 | the in-order loop has the closed form and no other effect has |
| `EffectForm.WindowsExact` | crates/arcadia-tio-ocb-core/src/parallel_prepare.rs:1195-1317 | so has the window-by-window loop, where a window is begun only if it is good throughout and the first failure of the next one is the verdict |
| `EffectForm.FirstFailureReported` | crates/arcadia-tio-ocb-core/src/parallel_prepare.rs:1109-1117 | with a callback that always continues, both modes end with the code of the first failing row group, whether its read or its preparation failed |
| `SchedulerReport.PeakReported` | crates/arcadia-tio-ocb-core/src/parallel_prepare.rs:1130-1136 | in every run the reported in-flight peak is the largest number of ordinals queued beyond the commit frontier, or the window start, that any state of the run had |
| `SchedulerReport.PendingPeaks` | crates/arcadia-tio-ocb-core/src/parallel_prepare.rs:483-488 | in every run whose counters cannot overflow, both pending peaks are the largest pending values its states had |
| `SchedulerReport.PendingRowsExact` | crates/arcadia-tio-ocb-core/src/parallel_prepare.rs:483-493 | the pending rows of every state are the row counts of the finished, uncommitted row groups whose read did not fail |
| `SchedulerReport.RowsReported` | crates/arcadia-tio-ocb-core/src/parallel_prepare.rs:1085-1127 | the reported row count of every state is the sum over the committed row groups, capped at the largest 64-bit number |
| `SchedulerTheorems.MaximalRunsComplete` | crates/arcadia-tio-ocb-core/src/parallel_prepare.rs:648-862 | a run no thread can extend is complete and has the promised effect |
| `SchedulerTheorems.CanComplete` | crates/arcadia-tio-ocb-core/src/parallel_prepare.rs:648-862 | every run prefix extends to a complete run |
| `SchedulerTheorems.DeliveredSoFar` | crates/arcadia-tio-ocb-core/src/parallel_prepare.rs:1085-1127 | in every reachable state the callback calls made so far are a prefix of the promised ones |
| `SchedulerTheorems.DeadlockFree` | crates/arcadia-tio-ocb-core/src/parallel_prepare.rs:912-1022 | in every reachable unfinished state some thread can take a productive step |
| `SchedulerTheorems.Terminates` | crates/arcadia-tio-ocb-core/src/parallel_prepare.rs:1064-1317 | no run is longer than an explicit bound linear in tasks times workers |
| `SchedulerTheorems.Bounds` | crates/arcadia-tio-ocb-core/src/parallel_prepare.rs:1100-1140 | in every reachable state queued minus committed is at most the in-flight cap, both queues respect their capacities, each launched ordinal sits in exactly one stage, and committed <= completed <= queued |
| `SchedulerTheorems.CountersExact` | crates/arcadia-tio-ocb-core/src/parallel_prepare.rs:483-493 | when the row counts sum within 64 bits, the wrapping pending-result and pending-row counters equal the true pending totals in every reachable state, with peaks within the cap |
| `SchedulerTheorems.SlotExclusive` | crates/arcadia-tio-ocb-core/src/column_bundle.rs:4089-4137 | two different ordinals in flight never share slot `ordinal % max_in_flight` |
| `SchedulerTheorems.GenerationBound` | crates/arcadia-tio-ocb-core/src/parallel_prepare.rs:210-239 | the progress generation moves at most once per step |
| `SchedulerTheorems.StepKeepsInv` | crates/arcadia-tio-ocb-core/src/parallel_prepare.rs:912-1317 | every step of every thread keeps the whole invariant and lowers the termination measure |
| `SchedulerSignal.NoDeadlock` | crates/arcadia-tio-ocb-core/src/parallel_prepare.rs:316-364 | under the signalling invariant an unfinished state always has an enabled thread |
| `SchedulerLead.CoordinatorKeepsLead` | crates/arcadia-tio-ocb-core/src/parallel_prepare.rs:1064-1317 | every coordinator step keeps the coordinator's invariant, windows and reorder map included |
| `SchedulerFlow.WorkerConserves` | crates/arcadia-tio-ocb-core/src/parallel_prepare.rs:912-1022 | a worker step moves its ordinal between stages without losing or duplicating any |
| `SchedulerWork.WorkerKeepsSlots` | crates/arcadia-tio-ocb-core/src/column_bundle.rs:4089-4137 | a worker step leaves every uncommitted finished ordinal's slot holding that ordinal's own data |
| `SchedulerSpec.WindowsOfOne` | crates/arcadia-tio-ocb-core/src/parallel_prepare.rs:1195-1317 | windows of size one make the calls and verdict of the sequential loop |
| `SchedulerSpec.WindowsVersusSequential` | crates/arcadia-tio-ocb-core/src/parallel_prepare.rs:1195-1317 | for every callback the windowed calls are a prefix of the sequential ones, and the effects differ only when the windowed run reports a task failure |
| `SchedulerSpec.ModesAgreeIff` | crates/arcadia-tio-ocb-core/src/parallel_prepare.rs:1268-1317 | when some row group fails, the modes have the same effect for every callback if and only if the first failing ordinal is a multiple of the window size; a callback that always continues is otherwise called that remainder fewer times |
| `SchedulerSpec.WindowWithholds` | crates/arcadia-tio-ocb-core/src/parallel_prepare.rs:1268-1317 | two row groups in one window, the second failing: in order the first is delivered, windowed nothing is |
| `SchedulerSpec.NoFailureSameEffect` | crates/arcadia-tio-ocb-core/src/parallel_prepare.rs:1195-1317 | without a failing row group both modes have the same effect |
| `SerialVisit.VisitSerial` | crates/arcadia-tio-ocb-core/src/column_bundle.rs:3859-3914 | the serial visitor has the sequential effect and cursor report |
| `SerialVisit.WindowOfOneIsSerial` | crates/arcadia-tio-ocb-core/src/column_bundle.rs:3859-3941 | at window size one every complete scheduler run delivers and reports what the serial visitor does |
| `Launch.EffectiveThreads` | crates/arcadia-tio-ocb-core/src/column_bundle.rs:5163-5185 | the smaller of the request and the selected row groups, but at least one |
| `Launch.StartedIsValid` | crates/arcadia-tio-ocb-core/src/parallel_prepare.rs:672-712 | a zero in-flight limit and a task count other than the plan's are refused, nothing is run for no row groups, and otherwise the run has max(1, min(request, in-flight limit, row groups)) workers, both queues that long, and the request's tasks, mode and callback |
| `TaskQueues.TaskQueue.Push` | crates/arcadia-tio-ocb-core/src/parallel_prepare.rs:288-300 | a task enters exactly when the queue is open and below capacity, behind all that entered before; a refusal changes nothing; the queue stays bounded and first in first out over its whole history |
| `TaskQueues.TaskQueue.PushAll` | crates/arcadia-tio-ocb-core/src/parallel_prepare.rs:302-314 | a window enters whole, exactly when the queue is open and has room for all of it, else not at all; bound and order are kept |
| `TaskQueues.TaskQueue.TryPop` | crates/arcadia-tio-ocb-core/src/parallel_prepare.rs:316-332 | the tasks that came out are always a prefix of those that went in: the next to leave is the one that has waited longest |
| `TaskQueues.SharedObservations.Completed` | crates/arcadia-tio-ocb-core/src/parallel_prepare.rs:483-488 | the wrapping counters hold the true totals modulo 2^64, so exactly whenever those fit, and each peak is the largest value any completion left |
| `TaskQueues.SharedObservations.Committed` | crates/arcadia-tio-ocb-core/src/parallel_prepare.rs:490-493 | the same invariant after a commit, which leaves the peaks alone |
| `Wakeup.NoLostWakeup` | crates/arcadia-tio-ocb-core/src/parallel_prepare.rs:210-254 | with any clients, one shared access at a time and spurious wakeups: a waiter asleep on a stale generation, or after cancellation, always has an announcer on its way to it |
| `Wakeup.AnnouncerNotStuck` | crates/arcadia-tio-ocb-core/src/parallel_prepare.rs:231-239 | an announcer can always move, or the holder of the wait lock can |
| `Wakeup.AnnouncementAdvances` | crates/arcadia-tio-ocb-core/src/parallel_prepare.rs:231-254 | each step of an announcer brings it closer to waking the sleeper, and its last step wakes it |
| `Wakeup.QuiescentSleepersAreCurrent` | crates/arcadia-tio-ocb-core/src/parallel_prepare.rs:241-254 | when nobody is announcing, every sleeper has seen the latest generation and nothing was cancelled |
| `Wakeup.KeepsCount` | crates/arcadia-tio-ocb-core/src/parallel_prepare.rs:256-272 | the waiter count always equals the registered waiters and never underflows |
| `TaskWait.NoStrandedTask` | crates/arcadia-tio-ocb-core/src/parallel_prepare.rs:316-340 | workers sleeping in `pop` never strand a queued task and nobody sleeps on a closed queue |
| `CompactL2.RebuildOfSplit` | crates/arcadia-tio-ocb-core/src/compact_l2.rs:227-257 | every 168-byte record the header decoder accepts is rebuilt byte for byte from its lanes |
| `CompactL2.SplitOfRebuilt` | crates/arcadia-tio-ocb-core/src/compact_l2.rs:306-340 | every lane record that can be rebuilt is recovered by splitting the rebuilt bytes |
| `CompactL2.EncodeLayout` | crates/arcadia-tio-ocb-core/src/compact_l2.rs:306-340 | the encoder puts each lane at its fixed offset |
| `CompactL2.LayoutDetermines` | crates/arcadia-tio-ocb-core/src/compact_l2.rs:306-340 | the offsets determine all 168 bytes |
| `CompactL2.SplitLayout` | crates/arcadia-tio-ocb-core/src/compact_l2.rs:618-761 | accepted bytes are laid out from the lanes they split into, padding and reserved bytes included |
| `CompactL2.DecodeExact` | crates/arcadia-tio-ocb-core/src/compact_l2.rs:618-761 | a record is accepted, with this header, exactly when it lays out lanes with family 1 to 3, exchange at most 2, positive day, channel and index, and zero in the body fields its own kind leaves unused |
| `CompactL2.RebuildsIff` | crates/arcadia-tio-ocb-core/src/compact_l2.rs:306-340 | exactly those lane records can be rebuilt |
| `CompactL2.RefusalNamed` | crates/arcadia-tio-ocb-core/src/compact_l2.rs:618-700 | a wrong width is reported first, then an unknown schema version behind the right magic; every other refusal is a header mismatch |
| `CompactL2Writer.ToFixedBinaryV1` | crates/arcadia-tio-ocb-core/src/compact_l2.rs:306-340 | the in-place record writer computes the rebuild function |
| `CompactL2Writer.WriteRow` | crates/arcadia-tio-ocb-core/src/compact_l2.rs:552-593 | the in-place row writer computes the row's payload, or its error for a bad row, width or lane value |
| `CompactL2Writer.AppendPayloads` | crates/arcadia-tio-ocb-core/src/compact_l2.rs:443-474 | the vector grows by exactly the batch's payloads, keeps its old contents, and reports the first bad row; invalid lanes or lengths change nothing |
| `CompactL2Batch.RowPayloadAgrees` | crates/arcadia-tio-ocb-core/src/compact_l2.rs:552-593 | batch reconstruction of a row equals the record writer applied to that row's lanes, errors included |
| `CompactL2Batch.RebuildBatch` | crates/arcadia-tio-ocb-core/src/compact_l2.rs:443-474 | payloads split into lanes and rebuilt as a batch come back concatenated, byte for byte |
| `Fnv.Fnv1a64.Update` | crates/arcadia-tio-ocb-core/src/certification.rs:1687-1692 | the per-byte loop computes the FNV-1a fold, whose laws and answers follow |
| `FnvVectors.ZeroByte` | crates/arcadia-tio-ocb-core/src/certification.rs:1687-1692 | a zero byte multiplies any state by 0x100000001b3 modulo 2^64 |
| `FnvVectors.ByteFirst` | crates/arcadia-tio-ocb-core/src/certification.rs:1687-1692 | any byte is added to the state before that multiplication |
| `FnvVectors.AddedBit` | crates/arcadia-tio-ocb-core/src/certification.rs:1687-1692 | adding a byte flips exactly the state bits at which the byte has a one |
| `FnvVectors.ShortAnswers` | crates/arcadia-tio-ocb-core/src/certification.rs:1680-1697 | the hashes of the empty string and of `a` are those of draft-eastlake-fnv |
| `FnvVectors.LongAnswer` | crates/arcadia-tio-ocb-core/src/certification.rs:1680-1697 | so is the hash of `foobar` |
| `Fnv.FoldAppend` | crates/arcadia-tio-ocb-core/src/certification.rs:1687-1692 | hashing two pieces in turn hashes their concatenation |
| `Fnv.OneByteDetected` | crates/arcadia-tio-ocb-core/src/certification.rs:1680-1697 | changing any one byte of a stream changes its hash |
| `ContinuityScan.ScanExact` | crates/arcadia-tio-ocb-core/src/certification.rs:1464-1576 | the lane scan accepts exactly the rows of the expected day and channel, valid kinds and BizIndex equal to first plus position, for any expectations; its report has exact counts, edges and true nano extremes, with orders plus trades equal to rows |
| `ContinuityScan.RefusalNamesFirstBadRow` | crates/arcadia-tio-ocb-core/src/certification.rs:1464-1576 | a refusal is exactly what is wrong with the first row that breaks the run |
| `ContinuityScan.PartitionIndependent` | crates/arcadia-tio-ocb-core/src/certification.rs:521-537 | verdict, report and error do not depend on how rows are cut into row groups |
| `Certification.LaneScan.Batch` | crates/arcadia-tio-ocb-core/src/certification.rs:1464-1576 | the in-place batch scan computes the row-by-row scan of its lanes |
| `Certification.CertifyWaves` | crates/arcadia-tio-ocb-core/src/certification.rs:516-546 | for every wave size the nested loops compute the batch-by-batch certification |
| `FileCertification.CertifyFile` | crates/arcadia-tio-ocb-core/src/certification.rs:516-596 | for any lanes and options, accepted exactly when the rows are continuous as expected, number what the metadata says, have the expected edges and rebuild to payloads of the expected hash; the report is then true |
| `FileCertification.AcceptedIff` | crates/arcadia-tio-ocb-core/src/certification.rs:516-596 | the same for the batch-by-batch fold: acceptance and the truth of the report, over concatenated rows and payloads |
| `CertificationTheorems.LegacyHashOfStream` | crates/arcadia-tio-ocb-core/src/certification.rs:516-546 | with scalar continuity on or off, for every cut into row groups: the lanes of a payload stream are accepted exactly when the scan, or the row count, of the whole stream is, and then their legacy hash is the hash of the original bytes |
| `PayloadScan.PayloadScanExact` | crates/arcadia-tio-ocb-core/src/certification.rs:1182-1339 | the header scan accepts exactly the records that run over the channel's whole range in order, and reports them truly |
| `PayloadScan.CertifiersAgree` | crates/arcadia-tio-ocb-core/src/certification.rs:955-978 | on any list of decoded records whose days fit the lane, empty included, the v1 certifier and the v2 certifier with its row-count and edge checks reach the same verdict and report, and acceptance forces rows = row_count = last - first + 1 |
| `PayloadScan.RecordsCertifiedIff` | crates/arcadia-tio-ocb-core/src/certification.rs:955-978 | the v1 certifier accepts exactly the nonempty runs of in-place records that fill the stated range and count, and reports their tally |
| `PayloadScan.LanesCertifiedIff` | crates/arcadia-tio-ocb-core/src/certification.rs:548-578 | with both edges stated, the v2 certifier accepts exactly the nonempty continuous runs between them of the stated count, and reports their tally |
| `PayloadColumns.ScanPayloadHeaders` | crates/arcadia-tio-ocb-core/src/certification.rs:1182-1339 | the visitor loop over fixed-binary row groups computes the record-by-record scan, shape errors included |
| `PayloadColumns.CertifyChannel` | crates/arcadia-tio-ocb-core/src/certification.rs:944-978 | the scan of the row groups, then a refusal exactly when the scanned rows or first and last index differ from the manifest entry |
| `CertificationTheorems.PayloadScanOfStream` | crates/arcadia-tio-ocb-core/src/certification.rs:1202-1330 | the v1 scan depends only on the payload stream, not on its row groups |
| `CertificationTheorems.ArtifactsAgree` | crates/arcadia-tio-ocb-core/src/certification.rs:944-978 | one payload stream stored as records and as lanes, cut differently: the v2 certifier accepts exactly when the v1 certifier does and any expected hash is that of the bytes the v1 artifact stores, with the same report |
| `Crc32c.StepIsDivision` | crates/arcadia-tio-ocb-core/src/format.rs:3507-3537 | the table-driven step is eight steps of the bit-by-bit reflected division |
| `Crc32c.UpdateFeeds` | crates/arcadia-tio-ocb-core/src/format.rs:3531-3537 | the table-driven update divides the whole message bit by bit, least significant bit first |
| `Crc32c.PolyIsCastagnoli` | crates/arcadia-tio-ocb-core/src/format.rs:3504-3504 | the reflected constant is the polynomial of section 12.1 of RFC 3720 |
| `Crc32c.ChecksumIsRemainder` | crates/arcadia-tio-ocb-core/src/format.rs:3527-3545 | before the final inversion the register is the remainder of the message polynomial by the generator, and the only one |
| `Crc32cVectors.InitIsOnes` | crates/arcadia-tio-ocb-core/src/format.rs:3527-3529 | the register starts with all 32 bits set |
| `Crc32cVectors.Residue` | crates/arcadia-tio-ocb-core/src/format.rs:3527-3545 | any message followed by its checksum, least significant byte first, leaves the register at the residue 0xB798B438 |
| `Crc32cVectors.ResidueIff` | crates/arcadia-tio-ocb-core/src/format.rs:3527-3545 | of all 32-bit trailers only the checksum does |
| `Crc32cVectors.CheckValue` | crates/arcadia-tio-ocb-core/src/format.rs:3527-3545 | the checksum of the digits 1 to 9 is 0xE3069283 |
| `Crc32c.UpdateAppend` | crates/arcadia-tio-ocb-core/src/format.rs:3531-3537 | updating over two pieces equals updating over their concatenation |
| `Crc32c.StepInjective` | crates/arcadia-tio-ocb-core/src/format.rs:3531-3537 | the step is injective in the state and in the byte |
| `Crc32c.BurstDetected` | crates/arcadia-tio-ocb-core/src/format.rs:3531-3537 | two messages that agree outside a burst of at most 32 bits and reach one register are equal |
| `Crc32c.BuildEntry` | crates/arcadia-tio-ocb-core/src/format.rs:3511-3520 | the inner table loop computes the entry |
| `Crc32c.BuildTable` | crates/arcadia-tio-ocb-core/src/format.rs:3507-3525 | the table holds the division of every byte |
| `Crc32c.UpdateWithTable` | crates/arcadia-tio-ocb-core/src/format.rs:3531-3537 | the table loop computes the specified update |
| `Crc32c.OneByteRejected` | crates/arcadia-tio-ocb-core/src/format.rs:1408-1419 | changing any single byte of an accepted object, trailer included, makes it unacceptable |
| `Crc32c.BurstRejected` | crates/arcadia-tio-ocb-core/src/format.rs:1408-1419 | so does any change confined to four consecutive body bytes or to the trailer |
| `OcbReader.EnvelopeExact` | crates/arcadia-tio-ocb-core/src/format.rs:1420-1439 | magic, version and header length are accepted exactly when they are the expected bytes |
| `Bytes.LittleEndian` | crates/arcadia-tio-ocb-core/src/format.rs:3310-3332 | two, four and eight bytes are read as the sum of each byte times its power of 256, the first byte counting least |
| `OcbReader.TakePutAll` | crates/arcadia-tio-ocb-core/src/format.rs:3395-3406 | a counted record sequence is read back whole |
| `OcbReader.ValidateRecords` | crates/arcadia-tio-ocb-core/src/format.rs:3384-3393 | the validating pass accepts exactly what taking the records would, and stops where they end |
| `OcbReader.ReadRecords` | crates/arcadia-tio-ocb-core/src/format.rs:3395-3406 | on validated bytes the reading pass cannot fail and sees the same records |
| `OcbReader.Budget.Charge` | crates/arcadia-tio-ocb-core/src/resource_limits.rs:222-235 | charges all of the bytes or nothing |
| `OcbStringTable.ParseExact` | crates/arcadia-tio-ocb-core/src/format.rs:1408-1480 | the reader accepts exactly the sealed objects that hold valid UTF-8 strings, any reserved word and slack before the trailer, and reads those strings |
| `OcbStringTable.ParseOfPrint` | crates/arcadia-tio-ocb-core/src/format.rs:1408-1497 | a table is written exactly when its count and every length fit 32 bits, and reading it returns its strings |
| `Utf8Form.ValidUtf8Iff` | crates/arcadia-tio-ocb-core/src/format.rs:3346-3382 | a string is accepted exactly when its bytes are the concatenated encodings of Unicode scalar values (RFC 3629, section 3) |
| `Utf8Form.DecodeOfEncode` | crates/arcadia-tio-ocb-core/src/format.rs:3346-3382 | those scalar values are determined: decoding the encodings returns them |
| `OcbLayout.StringLaid` | crates/arcadia-tio-ocb-core/src/format.rs:3346-3382 | a string is its 32-bit length and that many bytes |
| `OcbStringTable.StringsWritten` | crates/arcadia-tio-ocb-core/src/format.rs:3346-3382 | accepted strings are exactly what lies before the rest, and all four trailer bytes stay ahead |
| `OcbStringTable.Read` | crates/arcadia-tio-ocb-core/src/format.rs:1408-1480 | structure first, then the exact retained size charged or refused; any failure leaves the budget unchanged |
| `OcbStringTable.Write` | crates/arcadia-tio-ocb-core/src/format.rs:1482-1497 | the buffer-growing writer computes the printer, refusing strings too long for their length field |
| `OcbDictionary.ParseExact` | crates/arcadia-tio-ocb-core/src/format.rs:1893-2028 | the reader accepts exactly the sealed objects that hold readable values, and reads those |
| `OcbDictionary.ParseOfPrint` | crates/arcadia-tio-ocb-core/src/format.rs:1893-2077 | reading a written object returns its values if and only if there are not 2^32 - 1 of them and no fixed-width value is 2^32 bytes or longer; otherwise it is refused |
| `OcbLayout.DictionaryHeaderLaid` | crates/arcadia-tio-ocb-core/src/format.rs:1893-1939 | an accepted header, by byte offset and kind code |
| `OcbLayout.DictionaryTableLaid` | crates/arcadia-tio-ocb-core/src/format.rs:1940-2028 | value `i` is the data between the `i`-th and next 64-bit offset, the first offset zero and the last the data length |
| `OcbDictionary.TruncatedWidth` | crates/arcadia-tio-ocb-core/src/format.rs:2048-2057 | a fixed-width value 2^32 bytes too long passes the writer's truncating check and is refused by the reader |
| `OcbDictionary.OneValueTooMany` | crates/arcadia-tio-ocb-core/src/format.rs:1933-1939 | 2^32 - 1 values are written and refused on reading |
| `OcbDictionary.Read` | crates/arcadia-tio-ocb-core/src/format.rs:1893-2028 | structure first, then the exact retained size charged or refused; any failure leaves the budget unchanged |
| `OcbDictionary.Write` | crates/arcadia-tio-ocb-core/src/format.rs:2030-2077 | the offset- and data-growing writer computes the printer |
| `OcbRecords.BodyRefRead` | crates/arcadia-tio-ocb-core/src/format.rs:352-375 | a body reference is read back |
| `OcbRecords.RowGroupRead` | crates/arcadia-tio-ocb-core/src/format.rs:2201-2236 | a row-group descriptor is read back |
| `OcbRecords.ChunkRead` | crates/arcadia-tio-ocb-core/src/format.rs:2253-2288 | a column-chunk descriptor is read back |
| `OcbRecords.StatsRead` | crates/arcadia-tio-ocb-core/src/format.rs:2098-2183 | statistics whose scalars have the stated type are read back, sign extension included |
| `OcbRecords.KeyRead` | crates/arcadia-tio-ocb-core/src/format.rs:2713-2730 | an ordering key is read back |
| `OcbRecords.ProofRead` | crates/arcadia-tio-ocb-core/src/format.rs:2742-2767 | a row-group ordering proof is read back |
| `OcbRecords.BodyRefWritten` | crates/arcadia-tio-ocb-core/src/format.rs:352-375 | accepted bytes of a reference are exactly what its fields print as |
| `OcbRecords.RowGroupWritten` | crates/arcadia-tio-ocb-core/src/format.rs:2201-2236 | accepted bytes of a row group are its fields and two ignored words |
| `OcbRecords.StatsWritten` | crates/arcadia-tio-ocb-core/src/format.rs:2098-2183 | accepted statistics are their fields, ignored words and raw scalars that read as stated |
| `OcbLayout.BodyRefLaid` | crates/arcadia-tio-ocb-core/src/format.rs:352-375 | each field of an accepted body reference, by byte offset |
| `OcbLayout.RowGroupLaid` | crates/arcadia-tio-ocb-core/src/format.rs:2201-2236 | each field of an accepted row group, by byte offset: base row at 8, row count at 16, references after |
| `OcbLayout.ChunkLaid` | crates/arcadia-tio-ocb-core/src/format.rs:2253-2288 | each field of an accepted column chunk, by byte offset, with its type and codec codes |
| `OcbLayout.StatsLaid` | crates/arcadia-tio-ocb-core/src/format.rs:2098-2183 | each field of accepted statistics, by byte offset, minimum before maximum |
| `OcbLayout.KeyLaid` | crates/arcadia-tio-ocb-core/src/format.rs:2713-2730 | each field of an accepted ordering key, by byte offset |
| `OcbLayout.ProofLaid` | crates/arcadia-tio-ocb-core/src/format.rs:2742-2767 | each field of an accepted ordering proof, by byte offset |
| `OcbDelta.ParseOfPrint` | crates/arcadia-tio-ocb-core/src/format.rs:2494-2701 | reading a written delta returns every section |
| `OcbDeltaExact.ParseExact` | crates/arcadia-tio-ocb-core/src/format.rs:2494-2643 | the reader accepts exactly the sealed objects that hold a delta, over all reserved words, unread scalar bits and slack before the trailer, and reads that delta |
| `OcbLayout.DeltaHeaderLaid` | crates/arcadia-tio-ocb-core/src/format.rs:2494-2538 | each field and count of an accepted delta header, by byte offset |
| `OcbLayout.DeltaLaid` | crates/arcadia-tio-ocb-core/src/format.rs:2494-2643 | an accepted delta by byte offset: envelope, header from byte 12, and from byte 56 row groups, chunks, statistics, keys and proofs, record by record, each section as long as its count says |
| `OcbDelta.RecordsEndBeforeTrailer` | crates/arcadia-tio-ocb-core/src/format.rs:2539-2594 | an accepted delta's records take exactly their widths and leave every trailer byte unread |
| `OcbDelta.Read` | crates/arcadia-tio-ocb-core/src/format.rs:2494-2643 | structure first, then the exact retained size charged or refused, for any in-memory record sizes; any failure leaves the budget unchanged |
| `OcbDelta.Write` | crates/arcadia-tio-ocb-core/src/format.rs:2645-2701 | the section-appending writer computes the printer |
| `OcbBootstrap.SlotRoundTrip` | crates/arcadia-tio-ocb-core/src/format.rs:606-732 | a written root slot reads back, with the checksum it was sealed with |
| `OcbLayout.SlotLaid` | crates/arcadia-tio-ocb-core/src/format.rs:606-668 | each field of an accepted root slot, by byte offset: the root at 24, the previous root at 64 |
| `OcbBootstrap.SlotIsolation` | crates/arcadia-tio-ocb-core/src/format.rs:781-832 | pages that agree outside one slot's 160 bytes are accepted or refused alike, with the same fields and sibling slot bytes |
| `OcbBootstrap.TornWriteKeepsSibling` | crates/arcadia-tio-ocb-core/src/format.rs:766-771 | however a write of one slot ends, the sibling still reads back the slot written there |
| `OcbBootstrap.HeaderCorruptionRejected` | crates/arcadia-tio-ocb-core/src/format.rs:781-791 | any one changed byte outside the slots makes an accepted page unreadable |
| `OcbBootstrap.PageRoundTrip` | crates/arcadia-tio-ocb-core/src/format.rs:773-860 | a written page reads back with its fields and both slots |
| `OcbLayout.PageLaid` | crates/arcadia-tio-ocb-core/src/format.rs:781-832 | each field of an accepted page, both slots and the trailer, by byte offset |
| `OcbBootstrap.StableChecksum` | crates/arcadia-tio-ocb-core/src/format.rs:862-874 | the checksum is that of the page with slots and trailer zeroed |
| `PoolPreflight.Preflight` | crates/arcadia-tio-ocb-core/src/column_bundle.rs:5027-5094 | the checked 64-bit accounting accepts exactly what unbounded arithmetic would: every column has a width and the true sizes are within both limits |
| `PoolPreflight.SlotExact` | crates/arcadia-tio-ocb-core/src/column_bundle.rs:1884-1898 | building a slot succeeds and allocates exactly the accounted value and validity bytes |
| `PoolPreflight.BufferExact` | crates/arcadia-tio-ocb-core/src/column_bundle.rs:1655-1676 | a column buffer takes exactly its accounted bytes |
| `PoolPreflight.BufferHolds` | crates/arcadia-tio-ocb-core/src/column_bundle.rs:1629-1676 | a column buffer holds one zero value of the column's own type per row and, if nulls are allowed, the fewest bytes with a bit per row; it is built exactly when a fixed width is positive and its bytes fit 64 bits |
| `PoolPreflight.BitmapLength` | crates/arcadia-tio-ocb-core/src/column_bundle.rs:1785-1815 | the bitmap has a bit for each row and fewer than eight to spare |
| `PoolPreflight.BuildPool` | crates/arcadia-tio-ocb-core/src/column_bundle.rs:3223-3258 | a pool is built exactly when accepted; every slot then holds every column in its own type, and the slots and the whole pool are within their limits, to the byte |

## Left out

- Timing and attribution fields, worker reports and wait durations: diagnostics.
- Weak memory, mutex poisoning, and the mode in which a commit panic propagates.
- Spurious wakeups are part of `Wakeup` and `TaskWait` but not of the scheduler's step
  relation, where a blocked thread moves only when its condition holds; the step bound
  therefore counts productive steps.
- Wrap-around of the 64-bit progress generation, out of reach by
  `SchedulerTheorems.GenerationBound`.
- Operating-system calls, path and symlink checks, manifest JSON, zstd and SHA-256.
- Row-group predicate pruning, plan validation, metadata validation, root selection and
  chunk decoding; `planned_row_group_subset` and fixed-binary field projection.
- The row-group index, ordering proof, dictionary index, schema and column-chunk objects:
  the same envelope, section and budget scheme as the delta, with the same records.
- Objects of a version other than 1 in the writers; readers refuse them.
- Printing after parsing: readers drop reserved fields and accept slack before the trailer.
- v1 certification without payload headers, the optional receive-nano and kind-count checks
  of a manifest entry, and the hexadecimal form of the hash.
- OcbRecords.ChunkRead: holds for every descriptor, while the writer also restricts the
  kinds of its references; `OcbDelta.Encodable` states that restriction.
- CompactL2.RebuildOfSplit: the variant that takes scalar columns separately is not modelled.
