# Audit pipeline: a verified model

The repository carries SQL audit records from a database server to MongoDB. A BPF probe cuts each call into a main
record and at most one fragment per long field. An agent puts the pieces together in a ring allocator of its own and
batches the records for upload. A collector decodes the batches, queues them, and inserts their documents with
retries. This project models that path with its accounting, and the printer/parser pairs and the discovery cache that
the path relies on. `dafny verify dfyconfig.toml` checks everything.

| part | files | main results |
|---|---|---|
| capture | `Capture`, `AuditRecord`, `Bytes` | the probe's packing, bucket arithmetic, fragments; every reader's accessor finds its own field |
| ring allocator | `RingBuffer`, `RingLap`, `RingRoom` | it refines a map from keys to byte sequences; it has room as long as segments are given back within a lap; one that is never given up ends it |
| reassembly | `Reassembly`, `AgentWriter`, `RoundTrip`, `CaptureToSubmit`, `LostFragment` | split/merge round trip under any interleaving, and its exact condition under any loss of fragments |
| batch sender | `BatchPool`, `BatchSender`, `SenderInvariant`, `SenderOrder`, `SenderRuns`, `SenderProgress`, `GrpcSender` | batch ownership, record conservation, order, number of attempts, drain on stop and flush, and that a stop ends |
| accounting | `AgentRecords`, `AgentAccounting` | seen = lost + acknowledged + in flight + still in the kernel ring, in every state; no event is submitted twice |
| decoding | `RecordParser` | parsing succeeds exactly on concatenations of valid records, which have one decomposition |
| collector | `BoundedQueue`, `Chunking`, `MongoSink`, `Collector`, `CollectorProgress`, `CollectorService`, `IndexKey`, `Cluster` | queue history, optimal chunks, when exactly a task is accepted, conservation, that a shutdown ends, exactly-once storage beside any number of other collectors |
| sequence numbers | `SeqCheckpoint`, `AgentLife` | no number is used twice across crashes and exits; so no two records an agent ever accepts carry the same |
| configuration | `YamlText`, `SimpleYaml`, `YamlLoader`, `SectionLevels`, `Decimals`, `ConfigMerge` | printer and parser undo each other; when the parser overruns its section stack |
| discovery | `Registration`, `KeyRange`, `AddressList`, `Watch`, `Discovery`, `SendTarget` | addresses survive the JSON round trip; exact key ranges; the cached list is the registry's at its revision; the channel is the list's |
| together | `EndToEnd`, `Acknowledged` | from agents to collectors to the store, with crashes and resends: exactly-once storage, and what can become of an acknowledged record |

Concurrent parts are state machines: each critical section, or each message to the server, is one step, and the results
hold in every state of every run. Next to them stand classes with the program's own fields and loops whose methods are
proved equal to those steps. Layout is that of a build without perf fields, file version 7.

## What the proofs brought to light

- **32-bit lengths.** The probe clamps 64-bit lengths, the agent first cuts them to 32 bits. With all records at hand,
  an event arrives whole if and only if that cut is harmless (`RoundTrip.RoundTripExact`); a statement of 2^32 bytes
  is one it harms (`CaptureToSubmit.HugeCallBreaks`).
- **A tail completes an event.** A comment at `uprobe/src/uprobe.bpf.c:109` says that user space detects a loss by the
  broken chain of fragment numbers. The agent does not: an event that got its segment is submitted exactly when the
  tail arrives and what arrives fits (`LostFragment.TailDecides`), and if another fragment was lost the record, marked
  complete, has stale memory in the gap (`LostFragment.GapShowsMemory`). Whatever the memory, it is whole if and only
  if no fragment was lost and the lengths survive the cut (`LostFragment.WholeExact`). The counting results do not
  depend on this.
- **A lost tail ends the ring.** The segment of an event whose tail was lost is given up by no other event's records
  (`Reassembly.OtherEvent`), so it stays until the agent exits, and the write position never passes it if any request
  still has room behind its beginning. From then on all grants together fit once into the rest of the buffer, however
  much else is given back, and what would need more is refused (`RingLap.OneLapOnly`): within one lap after a lost tail
  no fragmented event is reassembled any more. Without such a segment the ring does not run out
  (`RingRoom.RoomForTheYoung`).
- **In-flight report of the collector.** The task is visible to workers before it is counted as accepted, so the
  unsigned difference can wrap around to 2^64 - 1 (`Collector.InflightWraps`); exactly when, is
  `Collector.SnapshotInflight`. The final report is not affected (`Collector.ShutdownDrains`).
- **Ordered inserts.** With `ordered_insert` on, a chunk whose insert breaks off half way counts as stored after the
  retry, although the documents behind the break are not (`MongoSink.OrderedRetry`); `MongoSink.OrderedChunkStored`
  says for any reply when a chunk is accepted and when all of it is stored. The default is off, and the exactly-once
  result is for unordered inserts.
- **Checkpoint.** The bound in memory moves even if its write fails, so the next poll does not try again and a number
  can be used twice (`SeqCheckpoint.FailedWriteRepeats`). The comment at `uprobe/src/uprobe.cpp:184` says that every
  number issued is strictly below the one on disk; after a clean exit they are equal
  (`SeqCheckpoint.CleanExitReachesTheEdge`), which is safe because the next start goes on behind it.
- **Section stack.** A section line that is indented deeper than the open sections reach makes the configuration parser
  write past the end of its stack; for every file, `SectionLevels.FaultExact` says when that happens.
- **Watch events.** Folding an event differs from asking again exactly when the entry of a key is rewritten and no
  other key holds the old address, which then stays in the list (`Watch.FoldExact`, `Watch.RewrittenKeyLingers`). The
  code would also mishandle the deletion of a shared address if the deletion named it, but the watch does not ask for
  previous values, so that a deletion always leads to a fresh range. Under changes of the other kinds the list is the
  registry's at the resolver's revision, through all ranges, watches and failures (`Discovery.ListIsRegistry`).
- **Control characters.** A line feed, return or tab in a registered address comes back as a letter
  (`Registration.AddressRoundTrip`, `Registration.LineFeedLost`).
- **Quotes in settings.** The configuration printer escapes double quotes, the parser does not undo it;
  `YamlText.ScalarRoundTrip` says exactly which scalars survive.

## Hypotheses

- 64-bit counters and sequence numbers do not wrap around.
- The allocator is not asked for lengths that wrap 64 bits; its buffer is there.
- The agent's counter of acknowledged records takes over whatever number an ok reply names. It is the number of records
  in the batches acknowledged as long as replies name the batch's count, which
  `CollectorService.AuditCollectorService.Upload` and `EndToEnd.UploadsWellFormed` prove of the collector.
- `AgentAccounting.SnapshotBalances` speaks of one instant. The program reads the kernel's, the sender's and the
  writer's counters one after another without a common lock; by how much its report is out of balance then is
  `AgentAccounting.StaggeredSnapshot`.
- A reply of the database lists every document it did not store. A connection may break at any point, and the server
  may still insert what it was sent, at any later time.
- Sequence numbers: the writes at the start and of the polls and the map update succeed, and at most half a block is
  issued from one poll's read, or the start, to the end of the next poll's write. None can be dropped:
  `SeqCheckpoint.FailedStartWriteRepeats`, `FailedWriteRepeats`, `FailedMapUpdateRepeats` and `OverrunRepeats` are runs
  in which only one of them fails and a number is used twice. The write at a clean exit may fail.
- Storage: different agents have different addresses (then they are indexed apart, `IndexKey.AddressesApart`), an
  agent keeps its address over restarts, and the collectors are sent nothing but the agents' uploads, each any number
  of times, in any order and by any of them. What the collection holds at the beginning stems from agents, too. That
  nothing acknowledged is lost silently needs besides that an agent gets an ok reply only to what some collector took
  in.
- Registry: a watch response brings all changes of the service up to the revision in its header.

## Model

| member | source | states |
|---|---|---|
| Capture.ClampLen | uprobe/src/uprobe.bpf.c:71-78 | non-positive lengths become 0, others are cut at the limit |
| Capture.CaptureArithmetic | uprobe/src/uprobe.bpf.c:290-363 | for all six lengths: every mask leaves its value alone, the main record fits its bucket, and one fragment covers the rest of a field up to the capture limit |
| Capture.FlagsTell | uprobe/src/uprobe.bpf.c:260-281 | the flag word decodes: a field is marked fragmented or truncated exactly when it is longer than the respective limit |
| Capture.MainImageValid | uprobe/src/uprobe.h:248-264 | every main record of the probe passes the agent's size test and fits its bucket |
| Capture.BuiltIsImage | uprobe/src/uprobe.bpf.c:248-363 | stamping, packing and sealing an arbitrary bucket in the probe's order yields every header field, each of the four name lengths in its own, and the payload of the call |
| Capture.MainReads | uprobe/src/uprobe.h:270-295 | in a finished main record the accessor of each name finds that name of the call, and those of SQL and params their first pieces |
| AuditRecord.ReadsBack | uprobe/src/uprobe.h:270-295 | texts laid behind each other are read back one by one, if each length field holds the length of its own text |
| Capture.RecordFlagsTell | uprobe/src/uprobe.bpf.c:335-339 | the two record flags say exactly that no field was cut at the capture limit, and that none continues in a fragment |
| Capture.ChainTells | uprobe/src/uprobe.bpf.c:343-369 | the records of a call are chained: the main record names the number of the first fragment, each fragment its parent and the number of the next, the last one none |
| Capture.PackNames | uprobe/src/uprobe.bpf.c:290-321 | the four names end up behind each other, and each one's length in the header field of that name |
| Capture.PackPayload | uprobe/src/uprobe.bpf.c:290-334 | the running length is that of names, first SQL piece and first params piece, which are in place |
| Capture.PackedPayloadHolds | uprobe/src/uprobe.bpf.c:290-334 | later pieces leave the earlier ones and their length fields alone |
| Capture.EmitCovers | uprobe/src/uprobe.bpf.c:110-148 | first piece and fragment together are the field up to the capture limit |
| Capture.Probe.NextEventSeq | uprobe/src/uprobe.bpf.c:95-103 | a number above all that other CPUs took before |
| Capture.Probe.PackMain | uprobe/src/uprobe.bpf.c:248-363 | on any bucket memory: the finished main record of the call, with each name's length in the field of that name, and rising numbers for it and its fragments, whatever other CPUs take in between |
| Capture.Probe.HandleUprobe | uprobe/src/uprobe.bpf.c:157-371 | inner or unreadable calls leave no trace; every other is counted as seen and either counted as dropped or put in the ring as its main record and those fragments that find room |
| Capture.Probe.EmitFragments | uprobe/src/uprobe.bpf.c:364-369 | SQL fragment, then params fragment, each if it finds room |
| RingBuffer.VarlenRingBuffer.constructor | uprobe/src/ring_buffer/ring_buffer.h:19-22 | an empty map |
| RingBuffer.VarlenRingBuffer.Allocate | uprobe/src/ring_buffer/ring_buffer.h:35-57 | the loop over the index and the pointer arithmetic compute the allocation step on the abstract ring |
| RingBuffer.VarlenRingBuffer.OverlapsUsed | uprobe/src/ring_buffer/ring_buffer.h:119-129 | true exactly when some live segment meets the place |
| RingBuffer.VarlenRingBuffer.Find | uprobe/src/ring_buffer/ring_buffer.h:59-69 | the bytes the map holds under the key |
| RingBuffer.VarlenRingBuffer.Fill | uprobe/src/ring_buffer/ring_buffer.h:73-83 | success exactly when the key is live and the piece fits; the copy is the fill step |
| RingBuffer.VarlenRingBuffer.Erase | uprobe/src/ring_buffer/ring_buffer.h:85-93 | says whether the key was live; the erase step |
| RingBuffer.VarlenRingBuffer.Clear | uprobe/src/ring_buffer/ring_buffer.h:100-106 | the count returned is the number of live keys; nothing stays |
| RingBuffer.UsedFits | uprobe/src/ring_buffer/ring_buffer.h:35-57 | disjoint segments inside the buffer never add up to more than it |
| RingBuffer.UsedWithinCapacity | uprobe/src/ring_buffer/ring_buffer.h:95-97 | used bytes are the sum of the live lengths and at most the capacity |
| RingBuffer.EraseKeeps | uprobe/src/ring_buffer/ring_buffer.h:85-93 | removes exactly the key from the map; placement stays valid |
| RingBuffer.AllocateGrants | uprobe/src/ring_buffer/ring_buffer.h:35-57 | a granted segment is in bounds, aligned and disjoint from all others, at least as long as asked, and no other key changes |
| RingBuffer.AllocateRefuses | uprobe/src/ring_buffer/ring_buffer.h:35-57 | a refusal evicts no other key; the key's own old segment is gone if the length was admissible |
| RingBuffer.AllocateSucceeds | uprobe/src/ring_buffer/ring_buffer.h:35-49 | granted exactly when the rounded length is admissible and no other live segment is in the way |
| RingBuffer.FillKeeps | uprobe/src/ring_buffer/ring_buffer.h:73-83 | a fill changes exactly the piece of its own key in the map |
| RingLap.GrantStarts | uprobe/src/ring_buffer/ring_buffer.h:35-57 | a segment that leaves room for any request behind its beginning is in the way of the write position as soon as it is granted |
| RingLap.OneLapOnly | uprobe/src/ring_buffer/ring_buffer.h:35-57 | over any run that spares a segment: all grants together fit once into the rest of the buffer, then every request is refused, and so is always one that does not fit in front of the segment |
| RingRoom.RoomForTheYoung | uprobe/src/ring_buffer/ring_buffer.h:35-57 | in any run that begins with an empty ring: a request is granted if from the oldest other live segment on no more was granted than the buffer less two of the largest requests, so the ring goes round as long as segments are given back in time |
| RingRoom.OperationChanges | uprobe/src/ring_buffer/ring_buffer.h:35-93 | every operation of the allocator is a change of the kind such runs are made of |
| Reassembly.StoredMainOk | uprobe/src/uprobe.cpp:449-487 | the stored segment has room for the whole event its header describes, and that header is the main record's |
| Reassembly.HandleEventOk | uprobe/src/uprobe.cpp:550-577 | every pending segment has room for its event after any record |
| Reassembly.OtherEvent | uprobe/src/uprobe.cpp:449-547 | a record of another event neither changes this event's state nor submits it |
| Reassembly.OwnEvent | uprobe/src/uprobe.cpp:449-547 | what a record does to its event depends on that event's state alone |
| Reassembly.Projection | uprobe/src/uprobe.cpp:449-577 | in any run, an event fares as if its own records came alone |
| Reassembly.CountersTell | uprobe/src/uprobe.cpp:406-487 | what a record does to the counters of received, refused and lost events, and that other events stay pending or lost as they were |
| Reassembly.OrphanIsLost | uprobe/src/uprobe.cpp:489-513 | a fragment of an event that the agent does not know makes it a lost one, unless it has no number |
| Reassembly.NoRoomIsLost | uprobe/src/uprobe.cpp:449-487 | a fragmented main record that gets no segment makes its event a lost one |
| AgentWriter.WriterState.MarkPendingLost | uprobe/src/uprobe.cpp:406-412 | an event is counted as lost once, and event 0 never |
| AgentWriter.WriterState.HandleMainEvent | uprobe/src/uprobe.cpp:449-487 | over the real allocator: ignored, submitted, kept or lost as specified on the abstract map; a segment is asked for exactly if the event continues in fragments, and the outcome follows the allocator's own answer |
| AgentWriter.WriterState.HandleFragment | uprobe/src/uprobe.cpp:489-547 | over the real allocator: fill, loss or completion as specified |
| AgentWriter.WriterState.FinishSegment | uprobe/src/uprobe.cpp:531-547 | the record taken out has the merged header, and its key is neither pending nor lost any more |
| AgentWriter.WriterState.HandleEvent | uprobe/src/uprobe.cpp:550-577 | one record off the ring is one step of the reassembly, whose grant is the allocator's own answer, and one change of the ring in the sense of `RingRoom` |
| AgentWriter.WriterState.DropPending | uprobe/src/uprobe.cpp:776 | all pending events move to the lost count |
| RoundTrip.MergedFields | uprobe/src/uprobe.cpp:531-547 | completion writes size, two lengths, the complete flag and the address, and nothing else |
| RoundTrip.RoundTrip | uprobe/src/uprobe.cpp:449-547 | under any interleaving that keeps an event's own order and loses none of its records: exactly one submission, the names, each field up to 65536 bytes, consistent lengths, and nothing left pending |
| RoundTrip.RoundTripExact | uprobe/src/uprobe.cpp:381-389 | with all records at hand, the submission is whole if and only if cutting the lengths to 32 bits does not shorten a captured field |
| RoundTrip.DirectWhole | uprobe/src/uprobe.cpp:415-439 | an event that was never cut is submitted whole from its one record |
| RoundTrip.WholeReads | uprobe/src/uprobe.h:270-295 | in an event that is submitted whole, each accessor finds that name of the call, SQL and params up to the capture limit; it is marked physically complete exactly when neither was longer |
| CaptureToSubmit.EveryLongCall | uprobe/src/uprobe.bpf.c:157-371 | for every readable call with a long field, any old memory and any numbers between those of other CPUs: the probe's own output makes any agent submit one record, whole if and only if the 32-bit cut is harmless |
| CaptureToSubmit.ReadersFind | uprobe/src/uprobe.h:270-295 | from the call to the readers: the one record that any agent submits for it reads back as the call's user, proxy user, tenant, database, SQL and params |
| CaptureToSubmit.HugeCallBreaks | uprobe/src/uprobe.cpp:381-389 | a statement of 2^32 bytes is not submitted whole although all its records arrive |
| LostFragment.GapShowsMemory | uprobe/src/uprobe.cpp:531-547 | any interleaving, tail without SQL fragment: one record, marked complete, whose gap holds the allocator's old bytes |
| LostFragment.HoleDecides | uprobe/src/uprobe.cpp:515-547 | completing a segment with a gap is right exactly when the gap already has the right content |
| LostFragment.TailDecides | uprobe/src/uprobe.cpp:489-547 | any interleaving, any loss of fragments, any lengths: an event with a segment is submitted once if its tail arrives and the fragments that arrive have room, else not at all; if the cut leaves the lengths they always have |
| LostFragment.WholeInMemory | uprobe/src/uprobe.cpp:489-547 | it is submitted whole if and only if the lengths survive the cut, the tail arrives, and nothing was lost or the memory happened to hold the lost piece |
| LostFragment.WholeExact | uprobe/src/uprobe.cpp:489-547 | it is submitted whole whatever memory the allocator grants, if and only if no fragment was lost and the lengths survive the 32-bit cut |
| RecordParser.ParseAuditRecords | uprobe/src/audit_event_parser.cpp:22-66 | the loop computes the recursive parse, with the same first error |
| RecordParser.HeadSound | uprobe/src/audit_event_parser.cpp:8-20 | a size is read only where a valid record of that size begins |
| RecordParser.HeadComplete | uprobe/src/audit_event_parser.cpp:8-20 | where a valid record stands its size is read |
| RecordParser.ParseSound | uprobe/src/audit_event_parser.cpp:22-66 | the events returned are valid, adjacent, and tile the buffer |
| RecordParser.ParseComplete | uprobe/src/audit_event_parser.cpp:22-66 | every concatenation of valid records is cut where it was joined |
| RecordParser.ParseExact | uprobe/src/audit_event_parser.cpp:22-66 | success if and only if the bytes are a concatenation of valid records; the decomposition is unique |
| BatchPool.AcquireKeeps | uprobe/src/audit_grpc_sender.cpp:109-121 | stack and flags stay in step; none exactly when the stack is empty; the top of the stack is what comes out |
| BatchPool.ReleaseKeeps | uprobe/src/audit_grpc_sender.cpp:123-136 | stack and flags stay in step, and a batch is never twice on the stack |
| BatchPool.ReleaseUndoesAcquire | uprobe/src/audit_grpc_sender.cpp:109-136 | taking a batch and giving it back restores stack and flags |
| BatchPool.FreshPoolValid | uprobe/src/audit_grpc_sender.cpp:83-107 | in a new pool every batch is free once |
| BatchPool.Batches.InitPool | uprobe/src/audit_grpc_sender.cpp:83-107 | refuses a zero batch size, too few or too many batches; otherwise builds the fresh pool |
| BatchPool.Batches.Acquire | uprobe/src/audit_grpc_sender.cpp:109-121 | the in-place acquire is the acquire step |
| BatchPool.Batches.Release | uprobe/src/audit_grpc_sender.cpp:123-136 | the in-place release is the release step |
| SenderInvariant.SealKeeps | uprobe/src/audit_grpc_sender.cpp:274-282 | sealing keeps the invariant and the queue; an open batch that stays is an empty one |
| SenderInvariant.SubmitKeeps | uprobe/src/audit_grpc_sender.cpp:709-781 | ownership, contents and counters stay right, and exactly the record joins the accepted ones, or none |
| SenderInvariant.PopKeeps | uprobe/src/audit_grpc_sender.cpp:540-567 | handing a batch to a worker, waiting or leaving keeps the invariant |
| SenderInvariant.FailedKeeps | uprobe/src/audit_grpc_sender.cpp:513-526 | a failed attempt changes no count of records |
| SenderInvariant.SucceededKeeps | uprobe/src/audit_grpc_sender.cpp:419-502 | an acknowledged batch moves as a whole to the acknowledged records |
| SenderInvariant.GaveUpKeeps | uprobe/src/audit_grpc_sender.cpp:526-538 | a batch given up moves as a whole to the dropped records |
| SenderOrder.SubmitRefuses | uprobe/src/audit_grpc_sender.cpp:709-747 | refused exactly when empty, unwelcome, oversized, or without room while no batch is free; then nothing that waits changes |
| SenderOrder.SubmitPlaces | uprobe/src/audit_grpc_sender.cpp:733-775 | the record goes behind those of the open batch if it fits, else alone into a new batch at the queue's end; the batch stays open unless full |
| SenderOrder.PopTakesOldest | uprobe/src/audit_grpc_sender.cpp:540-567 | one turn of an idle worker: it gets a batch if and only if one is ready or the open one expired, and then the head of the queue for a first attempt; it leaves if and only if the sender stops and nothing is queued; else it and the queue stay |
| SenderRuns.ReturnedKeeps | uprobe/src/audit_grpc_sender.cpp:582-591 | the worker's batch is always really pushed on the free stack, never ignored |
| SenderRuns.NewSenderInv | uprobe/src/audit_grpc_sender.cpp:600-652 | a started sender owns every batch once |
| SenderRuns.NextKeeps | uprobe/src/audit_grpc_sender.cpp:540-781 | every step of every thread keeps the invariant |
| SenderRuns.InEveryState | uprobe/src/audit_grpc_sender.cpp:540-781 | in every state of every run, through restarts: each batch is in one place, payloads are their records and fit, counters are the sums |
| SenderRuns.Account | uprobe/src/audit_grpc_sender.cpp:208-220 | accepted = acknowledged + dropped + queued + undecided, in every state |
| SenderRuns.StopDrains | uprobe/src/audit_grpc_sender.cpp:667-707 | after all workers left: accepted = acknowledged + dropped, all batches free, and the last clean-up finds nothing |
| SenderRuns.FlushDrains | uprobe/src/audit_grpc_sender.cpp:654-665 | the counters flush waits for are zero if and only if no batch is queued or held; then accepted = acknowledged + dropped |
| SenderRuns.UploadAccepted | uprobe/src/audit_grpc_sender.cpp:440-456 | an upload holds nothing but accepted records |
| SenderRuns.UploadDecodes | uprobe/src/audit_grpc_sender.cpp:440-456 | an uploaded payload decodes to its records, as many as announced |
| SenderProgress.StartMeans | uprobe/src/audit_grpc_sender.cpp:600-652 | a start gives idle workers, empty books and the configured number of retries, exactly when the pool has two batches more than there are workers; else nothing changes |
| SenderProgress.OwnStep | uprobe/src/audit_grpc_sender.cpp:513-591 | where each step takes a worker: to the head of the queue, to the next attempt or the end of them, back to waiting |
| SenderProgress.AttemptsCount | uprobe/src/audit_grpc_sender.cpp:513-526 | in every state of every run: a worker's attempt number is the number of failed attempts at the batch it holds |
| SenderProgress.DroppedAfterAll | uprobe/src/audit_grpc_sender.cpp:513-538 | a batch is given up only after as many failed attempts as there are retries, and one more |
| SenderProgress.BooksAreTrue | uprobe/src/audit_grpc_sender.cpp:419-538 | in every state of every run: accepted, acknowledged and dropped records are exactly those that the run's own steps took in, got confirmed and gave up |
| SenderProgress.FlushMeans | uprobe/src/audit_grpc_sender.cpp:654-676 | flush and stop make the open batch a ready one; stop also marks the sender |
| SenderProgress.StopEnds | uprobe/src/audit_grpc_sender.cpp:667-685 | from a stop on the workers have only so many steps left among them, whatever fails and whatever comes in between |
| SenderProgress.SomeoneMoves | uprobe/src/audit_grpc_sender.cpp:540-598 | and until all have left, one of them has a step to take |
| GrpcSender.RetryDelay | uprobe/src/audit_grpc_sender.cpp:504-511 | the delay is the initial one doubled per retry, at most the maximum, with the defaults for zeros |
| GrpcSender.AuditGrpcSender.SealCurrent | uprobe/src/audit_grpc_sender.cpp:274-282 | the in-place seal is the seal step |
| GrpcSender.AuditGrpcSender.Submit | uprobe/src/audit_grpc_sender.cpp:709-781 | result and new state are those of the submission step; the counters count the accepted records |
| GrpcSender.AuditGrpcSender.PopReadyBatch | uprobe/src/audit_grpc_sender.cpp:540-567 | one turn of the wait is the pop step, of which `SenderOrder.PopTakesOldest` says what it does |
| GrpcSender.AuditGrpcSender.UploadOnce | uprobe/src/audit_grpc_sender.cpp:419-538 | an attempt settles the batch or moves to the next attempt; whatever number an ok reply names goes into the acknowledged counter |
| GrpcSender.AuditGrpcSender.DropAfterRetries | uprobe/src/audit_grpc_sender.cpp:526-538 | the dropped counter grows by the batch's records |
| GrpcSender.AuditGrpcSender.CompleteActive | uprobe/src/audit_grpc_sender.cpp:582-591 | the batch goes back to the pool and out of the active count |
| GrpcSender.AuditGrpcSender.FlushBegin | uprobe/src/audit_grpc_sender.cpp:654-660 | seals, unless not started or stopping |
| GrpcSender.AuditGrpcSender.StopBegin | uprobe/src/audit_grpc_sender.cpp:667-676 | marks stopping and seals |
| GrpcSender.AuditGrpcSender.StopEnd | uprobe/src/audit_grpc_sender.cpp:686-707 | with the clean-up loops in place, the pool is unchanged and accepted = sent + dropped, and = acknowledged + dropped if the replies named the true counts |
| GrpcSender.AuditGrpcSender.Start | uprobe/src/audit_grpc_sender.cpp:600-652 | normalized configuration, fresh pool and counters; refuses fewer than workers + 2 batches |
| AgentRecords.CaptureIsLane | uprobe/src/uprobe.bpf.c:335-369 | for any call: one well-formed main record, then fragments of which exactly the last is a tail |
| AgentRecords.MainSettles | uprobe/src/uprobe.cpp:449-487 | a main record is received once and then submitted, pending or lost, exactly one of them; what is submitted is a valid record |
| AgentRecords.FragmentSettles | uprobe/src/uprobe.cpp:489-547 | a fragment moves its event at most once; for a lost event nothing changes however many arrive |
| AgentRecords.MergedValid | uprobe/src/uprobe.cpp:442-447 | every completed record is one the collector's decoder accepts, with its event's number and the agent's address |
| AgentAccounting.CallsAreCaptured | uprobe/src/uprobe.bpf.c:157-371 | the probe's output under a fresh number is always a capture step of the accounting, in whatever order calls got their numbers |
| AgentAccounting.ConsumedKeeps | uprobe/src/uprobe.cpp:550-577 | consuming a record and submitting to the sender keeps the account |
| AgentAccounting.EmittedKeeps | uprobe/src/uprobe.bpf.c:128-147 | so does a fragment that finds room, or none |
| AgentAccounting.InEveryState | uprobe/src/uprobe.cpp:331-577 | in every state: seen = ring drops + main records in the ring + received, received = enqueue-lost + pending-lost + pending + accepted |
| AgentAccounting.CountersAreTrue | uprobe/src/uprobe.cpp:331-577 | in every state: each counter is the number of steps of its kind in the run: calls handled, calls without room, events taken in, records completed but refused |
| AgentAccounting.SnapshotBalances | uprobe/src/uprobe.cpp:331-360 | in every state the report adds up: seen = lost + acknowledged + in flight + main records in the ring; the sender's in-flight number is what is queued or undecided, never negative |
| AgentAccounting.StaggeredSnapshot | uprobe/src/uprobe.cpp:331-360 | with all counters read one after another: the report is out of balance by exactly what was received meanwhile, less what was submitted, lost or refused after the respective counter was read |
| AgentAccounting.FinalSnapshot | uprobe/src/uprobe.cpp:762-787 | after pending was given up and flush returned, nothing is in flight |
| AgentAccounting.SubmittedOnce | uprobe/src/uprobe.cpp:415-447 | in every state: accepted records are valid, name the agent's address and pairwise different events, and each was accepted once |
| AgentAccounting.BatchesDecode | uprobe/src/uprobe.cpp:415-447 | in every state, every batch being uploaded decodes with its record count |
| BoundedQueue.History | uprobe/src/bounded_mpmc_queue.h:22-66 | over any run: accepted = popped followed by queued, in order; the length never exceeds the capacity |
| BoundedQueue.ClosedForGood | uprobe/src/bounded_mpmc_queue.h:58-66 | nothing is accepted after close |
| BoundedQueue.ClosedByClose | uprobe/src/bounded_mpmc_queue.h:58-66 | in any run, in every state after a close the queue is closed and nothing is accepted |
| BoundedQueue.EndMeansDrained | uprobe/src/bounded_mpmc_queue.h:44-56 | a pop reports the end only when closed and everything accepted was popped |
| BoundedQueue.BoundedMpmcQueue.constructor | uprobe/src/bounded_mpmc_queue.h:13-16 | empty, open, capacity at least one |
| BoundedQueue.BoundedMpmcQueue.Push | uprobe/src/bounded_mpmc_queue.h:22-31 | once awake: refused exactly when closed, and then nothing changes; else the item is last |
| BoundedQueue.BoundedMpmcQueue.TryPush | uprobe/src/bounded_mpmc_queue.h:34-42 | refused exactly when full or closed, and then nothing changes; else the item is last |
| BoundedQueue.BoundedMpmcQueue.Pop | uprobe/src/bounded_mpmc_queue.h:44-56 | once awake: the first item, or the end when there is none |
| BoundedQueue.BoundedMpmcQueue.Close | uprobe/src/bounded_mpmc_queue.h:58-66 | the queue is closed and keeps its items |
| Chunking.ExtendMaximal | uprobe/src/mongodb_sink.cpp:718-728 | the inner loop stops at the end of the longest allowed chunk |
| Chunking.GreedyIsPartition | uprobe/src/mongodb_sink.cpp:715-748 | the chunks are non-empty, contiguous, cover all, and those of two or more respect both limits |
| Chunking.GreedyOptimal | uprobe/src/mongodb_sink.cpp:715-748 | no partition under the same rule has fewer chunks |
| MongoSink.ServeKeeps | uprobe/src/mongodb_sink.cpp:91-131 | the server loses nothing, adds only what was sent, and keeps the key unique |
| MongoSink.UnorderedAccepted | uprobe/src/mongodb_sink.cpp:426-452 | an unordered chunk is accepted exactly when the server answered, refused no document on its own, and met the write concern or listed write errors, even none |
| MongoSink.UnorderedChunkStored | uprobe/src/mongodb_sink.cpp:733-747 | an accepted unordered chunk has every key stored |
| MongoSink.Resent | uprobe/src/mongodb_sink.cpp:426-452 | resending stored documents changes nothing and is accepted |
| MongoSink.OrderedChunkStored | uprobe/src/mongodb_sink.cpp:709-747 | an ordered chunk in any weather: when it is accepted, and that all of it is stored if and only if everything from the first error on is there already |
| MongoSink.OrderedRetry | uprobe/src/mongodb_sink.cpp:709-747 | an ordered chunk of new documents that breaks off behind some is accepted on the retry; all are stored if and only if none or all had been |
| MongoSink.OrderedLosesDocuments | uprobe/src/mongodb_sink.cpp:709-747 | a concrete accepted ordered chunk with a document that is nowhere stored |
| MongoSink.InsertFromKeeps | uprobe/src/mongodb_sink.cpp:715-748 | the same of the whole loop, whatever happens to its chunks |
| MongoSink.AcceptedExact | uprobe/src/mongodb_sink.cpp:715-765 | an unordered task is accepted if and only if at each cut the server answered, refused none of the chunk's documents on its own, and met the write concern or listed errors, even none; said of the weather and the keys taken before, not of the loop |
| MongoSink.AcceptedIsStored | uprobe/src/mongodb_sink.cpp:637-767 | unordered: a task accepted as a whole has every key stored |
| MongoSink.KeyMeansDocument | uprobe/src/mongodb_sink.cpp:91-131 | if keys tell documents apart, a stored key means the document itself is stored |
| IndexKey.QuadInjective | uprobe/src/mongodb_sink.cpp:271-287 | different IPv4 addresses have different texts |
| IndexKey.AddressesApart | uprobe/src/uprobe.cpp:112-119 | agents with different addresses are indexed apart, whatever text their uploads carry |
| IndexKey.EventKey | uprobe/src/mongodb_sink.cpp:403-424 | a whole event is indexed under the tenant in the call's own memory, the agent's address and the call's number; what is stored is the record itself |
| MongoSink.Sink.InsertEvents | uprobe/src/mongodb_sink.cpp:637-767 | both loops compute the chunk-by-chunk insert; empty input is ok, a sink that is not started is not; unordered, ok if and only if every chunk passes as `MongoSink.AcceptedExact` says |
| MongoSink.Sink.FindEnd | uprobe/src/mongodb_sink.cpp:716-728 | the inner loop finds the greedy chunk end |
| Collector.NextKeeps | uprobe/collector/mongo_insert_worker.cpp:111-143 | every step of uploads, workers and server keeps the invariant |
| Collector.Conservation | uprobe/collector/audit_collector.cpp:106-136 | accepted + not yet counted = persisted + failed + queued + held, in every state |
| Collector.ShutdownDrains | uprobe/collector/audit_collector.cpp:375-394 | after shutdown and worker stop: accepted = persisted + failed, every accepted task was completed once, in flight is zero |
| CollectorProgress.OwnStep | uprobe/collector/mongo_insert_worker.cpp:111-143 | where each step takes a worker: an idle one to the first task, or out if the queue is closed and empty; a failed attempt, and nothing else, starts the task again or ends it |
| CollectorProgress.AttemptsCount | uprobe/collector/mongo_insert_worker.cpp:111-143 | in every state of every run: a task's attempt number counts its failed attempts, and a task has failed if and only if four have |
| CollectorProgress.BooksAreTrue | uprobe/collector/audit_collector.cpp:106-136 | in every state of every run: the counters of records and tasks are what the run's own steps come to |
| CollectorProgress.ShutdownEnds | uprobe/collector/audit_collector.cpp:375-394 | from the closing of the queue on the workers have only so many steps left among them, whatever fails and whatever comes in between |
| CollectorProgress.SomeoneMoves | uprobe/src/bounded_mpmc_queue.h:44-56 | and each worker that has not left has a step to take |
| Collector.SnapshotInflight | uprobe/collector/collector_loss_metrics.cpp:102-117 | the reported number is queued and held less the uncounted; it wraps exactly when those outweigh it, and is exact exactly when there are none; the other four are the counters |
| Collector.InflightWraps | uprobe/collector/audit_collector.cpp:113-128 | a five-step run after which 2^64 - 1 records are reported in flight |
| Collector.AnswerBehind | uprobe/src/mongodb_sink.cpp:426-452 | when a worker takes the reply with its list of errors for success, every document of the chunk is stored |
| Collector.ExactlyOnce | uprobe/collector/mongo_insert_worker.cpp:111-143 | on a collection with any content, beside other collectors: in every state keys are unique and nothing is invented; every document of a task completed ok is stored, and once, if keys tell documents apart |
| Cluster.InEveryState | uprobe/src/audit_grpc_sender.cpp:306-324 | any number of collectors that come and go before one collection: each keeps its invariant in every state |
| Cluster.Projected | uprobe/src/audit_grpc_sender.cpp:306-324 | each collector's part in such a history is a run of its own, so all results on runs hold of it |
| CollectorService.LossMetrics.CountDone | uprobe/collector/audit_collector.cpp:292-305 | the task's records go to exactly one of two counters |
| CollectorService.LossMetrics.TakeSnapshot | uprobe/collector/collector_loss_metrics.cpp:102-117 | the difference is true exactly when no more is completed than accepted, else off by 2^64 |
| CollectorService.AuditCollectorService.Upload | uprobe/collector/audit_collector.cpp:69-136 | ok exactly for known version, decodable records, matching count and room in the queue; then exactly these are queued, counted and acknowledged; which error otherwise |
| CollectorService.AttemptsStore | uprobe/collector/mongo_insert_worker.cpp:111-143 | a task that ends well after any attempts has every key stored, none twice |
| CollectorService.AttemptsExact | uprobe/collector/mongo_insert_worker.cpp:111-143 | a task ends well if and only if one of its four attempts succeeds |
| CollectorService.TaskExact | uprobe/collector/mongo_insert_worker.cpp:111-143 | for unordered inserts, from the weather alone: if and only if in one of the four attempts every chunk passes |
| CollectorService.InsertTask | uprobe/collector/mongo_insert_worker.cpp:111-143 | the retry loop and the callback: ok if and only if one of the four attempts succeeds, and the task is counted accordingly |
| SeqCheckpoint.NumbersUnique | uprobe/src/uprobe.cpp:663-674 | across any crashes and exits, under the conditions: no number is consumed twice, in one process or two, and all lie at or below the one on disk |
| SeqCheckpoint.CrashExact | uprobe/src/uprobe.cpp:185-216 | with no condition on the past: a crash is harmless if and only if nothing consumed lies above the number on disk |
| SeqCheckpoint.CleanExitReachesTheEdge | uprobe/src/uprobe.cpp:795-800 | after a clean exit the number on disk is one that was used, and the next start begins behind it |
| SeqCheckpoint.FailedStartWriteRepeats | uprobe/src/uprobe.cpp:663-674 | only the write at the start fails: a run that uses a number twice |
| SeqCheckpoint.FailedMapUpdateRepeats | uprobe/src/uprobe.cpp:663-674 | only the map update fails: a run that uses a number twice |
| SeqCheckpoint.FailedWriteRepeats | uprobe/src/uprobe.cpp:713-722 | only one poll's write fails: a run that uses a number twice |
| SeqCheckpoint.OverrunRepeats | uprobe/src/uprobe.cpp:713-722 | all writes fine, half a block overrun: a run that uses a number twice |
| SeqCheckpoint.PollRaises | uprobe/src/uprobe.cpp:713-722 | a poll that moves the bound moves it by half a block at least, to a block above the number it read; one that does not leaves half a block |
| SeqCheckpoint.Checkpoint.Restore | uprobe/src/uprobe.cpp:663-674 | the start step, whether or not the write and the map update succeed, with a missing file read as 0: the bound is a block above the file, the counter is the file's number |
| SeqCheckpoint.Checkpoint.Poll | uprobe/src/uprobe.cpp:713-722 | the poll step: afterwards the number read is half a block or more below the bound; the file follows if the write succeeds |
| SeqCheckpoint.Checkpoint.Exit | uprobe/src/uprobe.cpp:795-800 | the exit step: the number read last is on disk if the write succeeds, else what was there |
| AgentLife.HeldIsFresh | uprobe/src/uprobe.bpf.c:95-103 | a number that a call holds was never consumed and is on no main record yet |
| AgentLife.InEveryState | uprobe/src/uprobe.cpp:663-800 | in every state of an agent's life, over crashes and restarts, the account, the checkpoint and the numbers in the ring agree |
| AgentLife.NumbersNeverRepeat | uprobe/src/uprobe.cpp:663-800 | over its whole life, no two records that an agent's senders accepted carry the same event number |
| YamlText.ScalarRoundTrip | uprobe/deploy/deploy_agent.py:207-215 | a printed scalar reads back as itself if and only if it is admissible |
| YamlText.AdmissibleReadsBack | uprobe/src/simple_yaml.h:109-130 | an admissible scalar survives comment stripping, trimming and unquoting |
| YamlText.QuotedLoses | uprobe/deploy/deploy_agent.py:213-214 | a scalar printed in quotes with a double quote in it never reads back |
| SimpleYaml.ScalarLine | uprobe/src/simple_yaml.h:21-50 | a printed item line means its key, level and scalar |
| SimpleYaml.SectionLine | uprobe/src/simple_yaml.h:21-47 | a printed section line means its key and level |
| SimpleYaml.ChunksOfFile | uprobe/src/simple_yaml.h:19-21 | the 1024-byte buffer delivers printed lines one by one |
| SimpleYaml.DumpLoads | uprobe/src/simple_yaml.h:38-50 | loading a printed mapping below a section adds its items and never writes past the section stack |
| SimpleYaml.ConfigRoundTrip | uprobe/deploy/deploy_agent.py:218-227 | loading a rendered configuration gives exactly its scalars, each under its path, in order, without fault |
| SimpleYaml.LookupRoundTrip | uprobe/deploy/deploy_agent.py:271-277 | for every path whatever, the loaded lookup gives what the configuration holds there, else the default |
| YamlLoader.StripComment | uprobe/src/simple_yaml.h:109-125 | the scan with two flags computes the recursive one |
| YamlLoader.TrimInPlace | uprobe/src/simple_yaml.h:94-100 | both loops |
| YamlLoader.CountLeadingSpaces | uprobe/src/simple_yaml.h:86-92 | the loop |
| YamlLoader.Yaml.LoadFile | uprobe/src/simple_yaml.h:13-54 | the read loop computes the load |
| YamlLoader.Yaml.LoadLine | uprobe/src/simple_yaml.h:21-50 | one line changes stack and items as its meaning says |
| YamlLoader.Yaml.Path | uprobe/src/simple_yaml.h:127-139 | the loop joins the stack and the key |
| YamlLoader.Yaml.Get | uprobe/src/simple_yaml.h:56-63 | the first item with the path, else the default |
| YamlLoader.DumpYaml | uprobe/deploy/deploy_agent.py:218-227 | the loop with its recursive calls prints the mapping |
| YamlLoader.BoolRoundTrip | uprobe/src/simple_yaml.h:65-69 | a printed boolean reads as it was, whatever the default |
| YamlLoader.NumberRoundTrip | uprobe/src/simple_yaml.h:71-81 | a printed number reads as it was if and only if it fits the 32 or 64 bits it is read with; else the conversion saturates or keeps the low 32 bits |
| YamlLoader.DecimalPlain | uprobe/deploy/deploy_agent.py:210-211 | numbers are printed bare and are admissible |
| SectionLevels.FaultExact | uprobe/src/simple_yaml.h:38-47 | for every file: the stack is overrun if and only if some indented section line has no section one level up before it that no shallower line closed |
| SectionLevels.DeepSectionFaults | uprobe/src/simple_yaml.h:40-47 | for instance by a lone section line at level two |
| ConfigMerge.DeepMerge | uprobe/deploy/deploy_agent.py:197-204 | the loop computes the merge, existing keys keeping their place |
| ConfigMerge.GetMerged | uprobe/deploy/deploy_agent.py:197-204 | every path into the result: nothing behind an overriding scalar, else the override laid over the base |
| ConfigMerge.OverrideWins | uprobe/deploy/deploy_agent.py:197-204 | an overriding scalar wins; what the overrides do not mention stays |
| Registration.JsonEscape | uprobe/src/collector_registry.cpp:39-53 | the loop escapes character by character |
| Registration.JsonStringValue | uprobe/src/collector_resolver.cpp:63-89 | the scanner with moving indices computes the extraction |
| Registration.NotElsewhere | uprobe/src/collector_resolver.cpp:65-68 | in a registered value the address pattern occurs early at most at the very end of the identifier |
| Registration.AddressRoundTrip | uprobe/src/collector_registry.cpp:70-85 | for every identifier: the extracted address is the registered one if and only if it has no line feed, return or tab |
| Registration.LineFeedLost | uprobe/src/collector_resolver.cpp:76-87 | an address with a line feed comes back with a letter in its place |
| KeyRange.FindPrefixEnd | uprobe/src/collector_resolver.cpp:45-56 | the backward scan computes the range end |
| KeyRange.RangeExact | uprobe/src/collector_resolver.cpp:45-56 | for every prefix and key over bytes: in the range if and only if it starts with the prefix |
| KeyRange.OwnServiceOnly | uprobe/src/collector_resolver.cpp:58-61 | with service names without slashes, exactly the own service's keys are found, an empty name standing for the default |
| AddressList.CollectAddresses | uprobe/src/collector_resolver.cpp:158-162 | the loop keeps each address once, in the order of the keys |
| AddressList.DedupKeeps | uprobe/src/collector_resolver.cpp:158-162 | no address twice, none lost |
| AddressList.StrictIsCanonical | uprobe/src/collector_resolver.cpp:169-179 | a set has one strictly sorted list, so comparing lists compares sets |
| AddressList.Resolver.ApplyNewSet | uprobe/src/collector_resolver.cpp:169-179 | the list is strictly sorted and holds the new set; the version moves by one exactly when the set changes |
| Watch.FoldExact | uprobe/src/collector_resolver.cpp:293-350 | folding an event agrees with asking again if and only if no address is given up that another key holds, or kept that none does |
| Watch.RewrittenKeyLingers | uprobe/src/collector_resolver.cpp:321-329 | after a collector registered again with another address the old one is still listed |
| Watch.WatchAgrees | uprobe/src/collector_resolver.cpp:293-350 | a burst of harmless events leaves what a fresh range would bring |
| Discovery.ListIsRegistry | uprobe/src/collector_resolver.cpp:239-372 | in every state of the discovery loop under harmless changes: the resolver's list is the one sorted list of the addresses registered at its revision; `Discovery.ListIsDelivered` says that it does not lag behind |
| Discovery.ListIsDelivered | uprobe/src/collector_resolver.cpp:339-348 | in every such state with a watch open: the list holds exactly the addresses registered as of the last delivered revision |
| Discovery.StepsMove | uprobe/src/collector_resolver.cpp:239-372 | what each step achieves: a range brings list and revision to its own, a response that changes the set moves the revision to its own and the version by one, a silent deletion or a break ends the watch |
| SendTarget.JoinAddrs | uprobe/src/audit_grpc_sender.cpp:295-304 | the loop joins the addresses with commas |
| SendTarget.JoinInjective | uprobe/src/audit_grpc_sender.cpp:295-304 | the joined text says exactly which addresses it was made of |
| SendTarget.TargetCoherent | uprobe/src/audit_grpc_sender.cpp:330-378 | in every state: not switching, versions equal and a non-empty set mean that the channel is over the resolver's list and the target text is that list's and no other's |
| SendTarget.RebuildEnds | uprobe/src/audit_grpc_sender.cpp:330-378 | whenever the version was found moved: once the discovery thread is through, the sender has that version and a new channel over that version's list, unless the list is empty, whatever workers and resolver do meanwhile |
| SendTarget.UseIsCurrent | uprobe/src/audit_grpc_sender.cpp:380-434 | before every upload a worker holds a stub of the channel in use, however often it was switched |
| EndToEnd.UploadsWellFormed | uprobe/src/audit_grpc_sender.cpp:440-456 | every upload in an agent's life is one the collector can only refuse for want of room, and holds accepted records |
| EndToEnd.KeysDistinguish | uprobe/src/mongodb_sink.cpp:91-131 | records of agents with addresses of their own that share the database key are the same record |
| EndToEnd.KnownFrom | uprobe/collector/audit_collector.cpp:69-136 | whatever is stored or a collector knows, at any time, is the document of a record that some agent accepted |
| EndToEnd.StoredOnce | uprobe/collector/mongo_insert_worker.cpp:111-143 | any agents under the checkpoint conditions with addresses of their own, any collectors before one collection, any crashes and resends: every record of a task completed ok is stored exactly once, and nothing else but records that agents accepted |
| Acknowledged.WhenAcknowledged | uprobe/src/audit_grpc_sender.cpp:484-500 | every record an agent counts as acknowledged was in an upload that got an ok reply |
| Acknowledged.NothingLostSilently | uprobe/collector/audit_collector.cpp:375-394 | every record that an agent ever counted as acknowledged is stored exactly once, or in a task that a collector counted as failed, or in the hands of a collector that has not shut down |

## Left out

- gRPC, libmongoc and etcd themselves: an upload, an insert or a watch is a step that may succeed, fail, or fail after taking effect.
- Real time: expiry of an open batch, back-off and debouncing are free choices. That a stop or a shutdown ends is proved up to the scheduler: workers that still can step do so.
- The BPF verifier, user-memory faults inside a field, process and thread ids, perf fields, timing macros and logs.
- Allocation failure in the ring buffer's constructor and in the pool; `next_event_seq` without its map.
- Forged records whose payload lengths wrap 32 bits: the agent's reading past them is not modelled.
- AgentAccounting: `handle_uprobe` counts and reserves before it submits; the kernel ring keeps reservation order, so both are one step.
- AgentAccounting: the `server_ip` patch is part of the submitted record rather than done inside the batch.
- GrpcSender: the counters of refused submissions, retries and rejected records, and the growth of strings on the heap.
- Collector: the CSV output path of `Upload`, and the accepted counters of the service object beside the loss metrics.
- Collector: documents are compared by key and record; BSON fields, the ingest time and the TTL index are left out.
- Registration: the host and protocol fields are not read back; an entry counts as valid when its address is taken.
- AddressList: between stop and the next start the list is empty while the version stays; coherence is claimed from start to stop.
- SendTarget: stop and the next start, which begin again with a channel version of 0 and new workers.
- AgentLife: restarts of the sender within one process; a process starts its sender once.
- ConfigMerge: the deployment programs around the merge, and `deploy_collector.py`, which repeats the same functions.
- SimpleYaml: a file with a NUL byte, and what the program does after the section stack was overrun.
- Enumeration tables, report tools, SSH deployment, packaging and SQL comparison scripts.
