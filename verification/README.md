# gokaf, modelled and proved in Dafny

gokaf is a small Kafka-style broker. This project models the parts of it that
carry state or arithmetic, and proves what they keep over every run: the
segmented log and its crash recovery, the record-batch and wire codecs, the
high watermark with its parked produce calls, follower replication and
acks=all, failover, the idempotent producer, the metadata log and its
followers, committed offsets, the consumer-group coordinator with its assignors,
follow targets, and ping-based liveness.

Everything is written in two layers. Value-level functions and state machines
carry the theorems (invariants over all runs, refinements, round trips). Classes
and methods with loops take the form of the original code, and their contracts
equate what they do with those functions.

| file | what it models |
|---|---|
| `Lists.dfy`, `Wire.dfy` | repeat-free sequences; integers, strings, varints and arrays on the wire |
| `LogFiles.dfy`, `LogModel.dfy`, `Storage.dfy` | log and index bytes; append, roll, crash, reopen as values; segments and logs as objects |
| `RecordBatch.dfy` | record batches: build, stamp, split, decode |
| `Watermark.dfy` | the leader's per-partition state and its waiters |
| `Replication.dfy`, `Durability.dfy`, `PartitionService.dfy` | a leader epoch; failovers and the epochs after it; fetch and produce of one partition |
| `Producer.dfy` | sequence checks and exactly-once storage |
| `Topics.dfy`, `MetadataCodec.dfy`, `Metadata.dfy`, `MetadataLog.dfy` | replica assignment, topic creation, failover; the metadata log as a replicated state machine |
| `Following.dfy` | which partitions a broker leads and whom it follows |
| `OffsetStore.dfy` | committed offsets |
| `GroupModel.dfy`, `GroupTimers.dfy`, `Coordinator.dfy` | the group state machine as values; its timers; the coordinator's methods |
| `Assignor.dfy`, `AssignmentCodec.dfy`, `GroupAssignment.dfy` | Range and RoundRobin; the assignment blob; assignments end to end |
| `Liveness.dfy` | miss counters and the controller |

Bytes are integers 0 to 255 and strings are byte sequences. Go's narrowing
conversions are written out (`Signed8` to `Signed64`). Concurrency is modelled
as interleaved steps, one step per critical section; clocks are parameters of
the steps; the CRC is a parameter.

## Where the code does less than its words

Each of these has a lemma that says exactly when the expected property holds, and
all but the last (where any longer name will do) one with a concrete input or run.

- A recovered index need not be the one that appends build: an index file that
  lost whole entries is accepted (`LogModel.ShortIndexHappens`,
  `LogModel.RecoveredIndexExact`). Reads do not suffer (`Storage.Log.Read` holds
  either way).
- `validRecordBatch` does not check the length field, and a batch whose length is
  false arrives at a follower in pieces (`Producer.RawIsValid`,
  `Replication.LyingLengthBreaks`). A cancelled fetcher's last request overlaps its
  successor's, and the follower stores a batch twice
  (`Replication.ReplacedFetcherBreaks`). `Replication.SafeIff` says exactly which
  runs of an epoch are safe.
- A follower never truncates: an old leader that comes back with a batch nobody
  fetched keeps it in the new leader's epoch (`Replication.OldLeaderReturns`,
  `Replication.SucceedSafeIff`).
- A duplicate is answered without a wait, so an acks=all resend can succeed before
  the ISR has the batch (`PartitionService.ResendAnsweredEarly`,
  `Replication.KnownHeldIff`).
- Asking for the ISR can lose a wakeup (`Watermark.LostWakeup`,
  `Watermark.AskISRDisciplines`, `Watermark.DisciplinedIff`).
- The watermark can fall, by a follower's fetch or by an old reading of the log end
  (`Watermark.WatermarkFalls`, `Watermark.WatermarkKeptIff`, `Watermark.NeverFallsIff`).
- An acks=all batch can be lost when a lagging replica is still in the registry
  ISR (`Durability.LaggardLoses`, `Durability.DurableIff`).
- A producer batch with a negative count, with no records, or past the int32
  sequence range breaks exactly-once (`Producer.NegativeCountStoresTwice`,
  `Producer.ZeroCountDropsNext`, `Producer.OverflowStoresNegative`,
  `Producer.ExactlyOnceIff`). An older duplicate is answered with the offset of the
  latest batch (`Producer.OlderDuplicateAnswersLatest`, `Producer.DuplicateOffsetIff`).
  A resend that is longer than what is stored, or starts below 0, succeeds and its new
  records are dropped (`Producer.DuplicateDropsRecords`, `Producer.DuplicateHeldIff`).
- A leader that syncs while a rebalance is being prepared leaves a stale answer in
  a newcomer's channel (`GroupModel.EarlySyncIsStale`, `GroupModel.EarlySyncHappens`,
  `GroupModel.LeadersWordIff`).
- The int32 generation wraps after 2^31 completed joins (`GroupModel.GenerationWraps`,
  `GroupModel.GenerationGrows`, `GroupModel.GenerationsRiseIff`).
- A controller that restarts without records a follower has pulled leaves the two
  logs apart (`Metadata.ControllerLosesRecords`, `Metadata.RunKeepsIff`).
- A topic that is deleted and created again with more replicas is tracked on its old
  ones by a leader that led it before (`Following.RecreatedTracksOld`,
  `Following.TracksIff`, `Following.RunTracksIff`).
- A metadata record that lists a partition twice can leave a fetcher on the wrong
  leader (`Following.RepeatedIdDisagrees`, `Following.UpsertAgreesIff`).
- Names over 32767 bytes do not come back from their encodings
  (`Wire.StringRoundTrip`, `MetadataCodec.RecordRoundTrip`, `OffsetStore.EntryRoundTrip`).

## Model

| member | source | states |
|---|---|---|
| `Wire.Int16RoundTrip` | internal/protocol/types.go:42-47 | any integer written as INT16 is read back narrowed to int16, with the input after it |
| `Wire.Int32RoundTrip` | internal/protocol/types.go:49-54 | any integer written as INT32 is read back narrowed, every int32 unchanged |
| `Wire.Int64RoundTrip` | internal/protocol/types.go:56-63 | the same for INT64 |
| `Wire.StringRoundTrip` | internal/protocol/types.go:82-86 | a string comes back if and only if it is at most 32767 bytes |
| `Wire.BlobRoundTrip` | internal/protocol/types.go:97-101 | bytes under 2^31 come back with the input after them |
| `Wire.UvarintRoundTrip` | internal/protocol/types.go:65-73 | every uint32 survives the unsigned varint, in at most five bytes |
| `Wire.VarintRoundTrip` | internal/protocol/types.go:75-78 | every int32 survives the zigzag varint, in at most five bytes |
| `Wire.ArrayRoundTrip` | internal/protocol/types.go:121-125 | if each item reads back before any continuation, so does the counted array |
| `Wire.StringCut` | internal/protocol/types.go:221-234 | a decoded string looks at nothing behind it, and any input that ends before its end fails |
| `Wire.VarintCut` | internal/protocol/types.go:193-219 | the same for varints |
| `Wire.ArrayCut` | internal/protocol/types.go:307-315 | the same for arrays whose items do |
| `Wire.Encoder.WriteUvarint` | internal/protocol/types.go:65-73 | the loop appends exactly the varint bytes |
| `Wire.Decoder.ReadUvarint` | internal/protocol/types.go:193-210 | the loop reads what the varint parser reads, and fails where it fails |
| `Wire.WriteArray` | internal/protocol/types.go:121-125 | a count and a loop of writes append the array encoding |
| `Wire.ReadArray` | internal/protocol/types.go:307-315 | a count and a loop of reads parse the array, failing with the first item that fails |
| `LogFiles.ScanCut` | internal/storage/log.go:364-386 | scanning a log file cut at any byte, from any entry boundary, yields exactly the whole entries that are left |
| `LogFiles.ScanIntact` | internal/storage/log.go:364-386 | scanning an intact file yields its entries |
| `LogFiles.DecodeIndexCut` | internal/storage/log.go:399-432 | an index file cut at any byte decodes to its whole entries |
| `LogFiles.BuildIndexValid` | internal/storage/log.go:434-469 | the rebuilt index names real entry boundaries with their offsets, strictly increasing |
| `LogFiles.BuildIndexPrefix` | internal/storage/log.go:434-469 | the index of a prefix of the entries is a prefix of the index |
| `LogFiles.IndexIsDense` | internal/storage/log.go:312-330 | the position that the index gives for any entry is less than one interval before it |
| `LogFiles.IndexIsSparse` | internal/storage/log.go:312-330 | index entries lie at least one interval apart |
| `LogModel.AppendHolds` | internal/storage/log.go:89-133 | an append, with or without a roll, keeps every log invariant and adds exactly one record to the history |
| `LogModel.RecoveredIndexExact` | internal/storage/log.go:219-263 | after a cut, the reopened index equals the incrementally built one if and only if the index file still covers the surviving entries |
| `LogModel.ShortIndexHappens` | internal/storage/log.go:399-432 | a concrete run after which the reopened index is shorter than the one appends would have built |
| `LogModel.OpenCutSegment` | internal/storage/log.go:219-263 | a segment whose files are cut anywhere reopens with exactly its whole entries and a valid index |
| `LogModel.OpenHolds` | internal/storage/log.go:54-83 | opening what a crash left restores every invariant over exactly the surviving prefix of the history |
| `LogModel.RunLog` | internal/storage/log.go:54-133 | through any run of appends, rolls, cuts and reopenings the log stands for its flat history |
| `LogModel.SegmentBound` | internal/storage/log.go:312-330 | in every reachable log each segment is one entry or at most 2^20 bytes, and its index entries fit int32, increase, and name real boundaries |
| `LogModel.AppendPackedIff` | internal/storage/log.go:95-105 | an append leaves every segment but the last without room for the entry after it, if and only if it does not put into a segment that a crash emptied what the one before has room for |
| `LogModel.NoCrashPacked` | internal/storage/log.go:95-105 | without crashes every segment but the last had no room for the entry after it |
| `Storage.ReadRecords` | internal/storage/log.go:478-518 | the read loop returns the entries at or after the offset, cut at the first point where payloads reach the limit |
| `Storage.RecoverLog` | internal/storage/log.go:364-386 | the recovery loop finds the next offset and the size of the whole entries |
| `Storage.LoadIndex` | internal/storage/log.go:399-432 | the load loop accepts an index file exactly as the value-level loader does |
| `Storage.RebuildIndex` | internal/storage/log.go:434-469 | the rebuild loop produces the index and its file bytes from the log bytes |
| `Storage.FirstAbove` | internal/storage/log.go:186-197 | the binary search finds the first key above x |
| `Storage.Segment.Open` | internal/storage/log.go:219-263 | reopening a segment from its files gives the recovered state |
| `Storage.Segment.MaybeWriteIndex` | internal/storage/log.go:312-330 | an index entry is written once enough bytes lie since the last one |
| `Storage.Segment.Write` | internal/storage/log.go:111-131 | one entry and at most one index entry are appended |
| `Storage.Segment.StartPosition` | internal/storage/log.go:332-341 | the index search gives an entry boundary at or before the offset, also when the int32 relative offset wraps; with an exact index less than one interval before it |
| `Storage.RecoverNextOffset` | internal/storage/log.go:388-397 | the next offset is one past the last whole entry, or the segment base |
| `Storage.Log.Open` | internal/storage/log.go:54-83 | opening a crashed directory gives a valid log whose contents are exactly the surviving records |
| `Storage.Log.Roll` | internal/storage/log.go:95-105 | a non-empty segment that the entry would overfill gets a successor |
| `Storage.Log.Write` | internal/storage/log.go:95-132 | one entry goes into the active segment, after a roll when it must |
| `Storage.Log.AppendWithOffset` | internal/storage/log.go:89-133 | returns the next offset, appends the stamped payload to the contents, and keeps the log valid |
| `Storage.Log.FindSegment` | internal/storage/log.go:186-197 | the owning segment of any non-negative offset, none for a negative one |
| `Storage.Log.Read` | internal/storage/log.go:139-154 | exactly the flat history from the offset to the end of its segment, cut at maxBytes, non-empty for every existing offset |
| `Storage.ScanIsFlat` | internal/storage/log.go:478-518 | scanning the owning segment from any boundary not past the offset finds the flat history from there |
| `RecordBatch.RecordRoundTrip` | internal/protocol/recordbatch.go:109-172 | a record comes back with its absolute offset, a null key distinct from an empty one |
| `RecordBatch.BatchRoundTrip` | internal/protocol/recordbatch.go:40-107 | a built batch decodes to all its records in order at their absolute offsets |
| `RecordBatch.BatchCut` | internal/protocol/recordbatch.go:85-107 | a built batch that is cut anywhere, or of another format, does not decode |
| `RecordBatch.CutIsTorn` | internal/replication/fetcher.go:122-133 | every proper prefix of a batch counts as torn |
| `RecordBatch.SplitJoin` | internal/replication/fetcher.go:122-133 | splitting a concatenation, torn end or not, gives back the batches if and only if each length field is true |
| `RecordBatch.SplitHonestThen` | internal/replication/fetcher.go:122-133 | batches with a true length field are split off, whatever bytes follow them |
| `RecordBatch.StampKeeps` | internal/network/produce.go:107-111 | stamping an offset changes nothing after byte 8, in particular not the length |
| `RecordBatch.StampBuilt` | internal/network/produce.go:107-111 | a built batch that is stamped is the batch built at that offset |
| `RecordBatch.DecodeJoin` | internal/protocol/recordbatch.go:67-83 | any concatenation of built and stamped batches, with a torn end or none, decodes to every record in order |
| `RecordBatch.BuildRecordBatch` | internal/protocol/recordbatch.go:40-65 | filling the header in place around the body gives exactly the batch bytes |
| `RecordBatch.DecodeBatch` | internal/protocol/recordbatch.go:85-107 | the record loop decodes what the value-level parser decodes |
| `RecordBatch.DecodeRecordBatches` | internal/protocol/recordbatch.go:67-83 | the batch loop agrees with the recursive decoder, failures included |
| `RecordBatch.SplitBatches` | internal/replication/fetcher.go:122-133 | the shrinking loop computes the split |
| `Watermark.RecomputedIs` | internal/replication/partition_state.go:120-136 | the recomputed watermark is the least of the leader end and the in-sync follower offsets |
| `Watermark.FilterKeeps` | internal/replication/partition_state.go:159-180 | a waiter filter keeps exactly the waiters it should, without repeats |
| `Watermark.FilterKeepsOrder` | internal/replication/partition_state.go:159-180 | waiters that stay keep their order |
| `Watermark.ReleaseConserves` | internal/replication/partition_state.go:159-169 | releasing closes or keeps every waiter and loses none |
| `Watermark.TimeOutIs` | internal/replication/partition_state.go:171-180 | a wait that times out takes its own waiter out and no other |
| `Watermark.StepMoves` | internal/replication/partition_state.go:49-118 | a wait parks exactly when it finds the watermark below its target; otherwise calls only move from parked to closed, or time out |
| `Watermark.EachCallEndsOnce` | internal/replication/partition_state.go:70-118 | over every run each parked call is still parked, was closed, or timed out, exactly one of them, and keeps the target it was made with |
| `Watermark.RunDisciplined` | internal/replication/partition_state.go:49-118 | over every run, ISR() included, no waiter is closed twice or while parked and each closed one was reached; without ISR() each parked one is above the watermark |
| `Watermark.DisciplinedIff` | internal/replication/partition_state.go:49-118 | over every run with ISR() calls in it, each parked waiter is above the watermark at every moment if and only if no ISR() call finds a waiter that neither the leader end nor an in-sync follower holds back |
| `Watermark.ParkedAreHeldBack` | internal/replication/partition_state.go:49-110 | without ISR(), over every run on a clock that does not go back, whoever is parked was held back by the leader end or an in-sync follower at the last recomputation |
| `Watermark.AskISRDisciplines` | internal/replication/partition_state.go:112-118 | asking for the ISR keeps that discipline if and only if every parked waiter is above the leader end or above the offset of a follower that is in sync now |
| `Watermark.LostWakeup` | internal/replication/partition_state.go:112-118 | a concrete run in which a reached waiter stays parked after ISR() |
| `Watermark.WatermarkFalls` | internal/replication/partition_state.go:49-110 | concrete runs in which a fetch and an old log end lower the watermark |
| `Watermark.WatermarkKeptIff` | internal/replication/partition_state.go:49-136 | every step kind keeps the watermark from falling if and only if the end it reports, and the offset of a follower that then bounds it, are not below it |
| `Watermark.NeverFallsIff` | internal/replication/partition_state.go:49-136 | over every run, ISR() included, on a clock that does not go back, the watermark never falls if and only if no step reports anything below it |
| `Watermark.PartitionState.constructor` | internal/replication/partition_state.go:28-47 | refines the start state |
| `Watermark.StartIs` | internal/replication/partition_state.go:28-47 | a new leader waits for every follower, from offset 0, until the lag timeout |
| `Watermark.PartitionState.Recompute` | internal/replication/partition_state.go:120-136 | the loop computes the watermark and reports whether it changed |
| `Watermark.PartitionState.ReleaseWaiters` | internal/replication/partition_state.go:159-169 | the in-place filter over the backing array releases exactly the reached waiters |
| `Watermark.PartitionState.RemoveWaiter` | internal/replication/partition_state.go:171-180 | the in-place filter removes exactly one waiter |
| `Watermark.PartitionState.Park` | internal/replication/partition_state.go:82-83 | a waiter is appended to the slice, which may move to a larger array |
| `Watermark.PartitionState.RecordFollowerFetch` | internal/replication/partition_state.go:49-59 | refines the fetch step |
| `Watermark.PartitionState.HighWatermark` | internal/replication/partition_state.go:101-110 | refines the watermark step and returns the watermark |
| `Watermark.PartitionState.BeginWait` | internal/replication/partition_state.go:70-85 | refines the wait step; true exactly when the watermark has reached the target |
| `Watermark.PartitionState.ISR` | internal/replication/partition_state.go:112-118 | lists the leader first and then exactly the in-sync followers, releasing nobody |
| `Replication.WatermarkIsHeld` | internal/replication/partition_state.go:120-157 | everything below a recomputed watermark is in the log of everyone in the ISR at that instant |
| `Replication.BringsIff` | internal/replication/fetcher.go:122-133 | what a follower splits off a response is the leader's batches if and only if their length fields are true |
| `Replication.DeliverSafeIff` | internal/replication/fetcher.go:40-70 | appending an answer keeps the cluster safe if and only if it brings nothing, or is applied at the log end it was asked from and brings batches with true length fields |
| `Replication.RecordSafe` | internal/network/fetch.go:96-99 | recording a follower fetch keeps every recorded offset at or below that follower's log end |
| `Replication.AwaitSafe` | internal/network/produce.go:155-163 | a wait that succeeds at once is an acknowledgement held by the whole ISR |
| `Replication.StepSafe` | internal/replication/fetcher.go:40-70 | every produce, ask, record, read, timely delivery, loss, wait, expiry and ISR step keeps the invariant, appends only, and forgets no acknowledgement |
| `Replication.RunSafe` | internal/replication/partition_state.go:49-136 | every interleaving from any safe moment, any number of requests of one follower under way: while answers are timely, follower logs stay prefixes of the leader's, recorded offsets are at most log ends, logs only grow, and every acknowledgement is remembered and held |
| `Replication.SafeIff` | internal/replication/fetcher.go:40-70 | over every run from a safe moment: safe at each moment if and only if every answer is applied in time |
| `Replication.SucceedSafeIff` | internal/replication/manager.go:51-101 | a new epoch over the logs that are left opens safe if and only if none of them is longer than the new leader's |
| `Replication.OldLeaderReturns` | internal/replication/manager.go:51-101 | a concrete old leader that follows the new one with a batch the new one does not have |
| `Replication.OrderlyIsOnTime` | internal/replication/fetcher.go:27-38 | followers with one fetcher each, and batches with true length fields, apply every answer in time |
| `Replication.AckMeans` | internal/network/produce.go:155-163 | each replica in the ISR at the instant of an acknowledgement has the leader's very batch at that offset |
| `Replication.KnownHeldIff` | internal/network/produce.go:119-135 | that the whole ISR holds everything below a duplicate's end can be told from what the leader knows if and only if every in-sync follower has asked from there or beyond |
| `Replication.ReplacedFetcherBreaks` | internal/replication/manager.go:159-169 | a fetcher replaced while its request is under way: the follower stores a batch twice and is no prefix any more |
| `Replication.ReplacedFetcherHappens` | internal/replication/manager.go:159-169 | a concrete moment from which that run starts |
| `Replication.LyingLengthBreaks` | internal/replication/fetcher.go:122-133 | a concrete run in which a batch with too small a length field makes a follower diverge |
| `PartitionService.JoinRecordPayloads` | internal/network/fetch.go:127-138 | the payloads are concatenated in order |
| `PartitionService.FetchPartition` | internal/network/fetch.go:80-125 | an unknown partition changes nothing; otherwise the follower stands at the offset it asked from, nobody else moves, the answered watermark is the least in-sync offset, and the leader's own batches from the offset are sent, at least one if it exists |
| `PartitionService.FetchIsRecorded` | internal/network/fetch.go:96-124 | a follower fetch is the record, watermark and answer steps of the replicated partition |
| `PartitionService.KnownIs` | internal/network/produce.go:84-88 | a partition is known exactly when the topic lists its id, and is looked up under it |
| `PartitionService.ReadBatches` | internal/network/fetch.go:106-124 | out of range, empty at the end, or the log's batches from the offset |
| `PartitionService.AppendBatches` | internal/replication/fetcher.go:64-69 | the follower appends exactly the split response to its log |
| `PartitionService.FetchedIsPrefix` | internal/replication/fetcher.go:40-70 | a prefix extended by a whole response is a longer prefix |
| `PartitionService.Store` | internal/network/produce.go:98-150 | the batch goes in at the end exactly when it names no producer or continues its sequence in the log; otherwise nothing is stored and the check says duplicate or gap |
| `PartitionService.StoreAndWait` | internal/network/produce.go:98-163 | the answer told from the log alone: the offset the batch got, the producer's latest batch for a repeat, or the sequence error; only an appended batch with acks -1 on a tracked partition waits, for the new log end |
| `PartitionService.ResendAnsweredEarly` | internal/network/produce.go:119-135 | a concrete resend that is answered success while the first send is parked and an in-sync follower has nothing |
| `PartitionService.ProducePartition` | internal/network/produce.go:81-163 | each refusal in the code's order and nothing changed; otherwise that answer, and a call that does not park leaves every in-sync follower at the new log end or beyond |
| `PartitionService.WaitIs` | internal/network/produce.go:155-163 | the wait for a log end is over exactly when every in-sync follower is there, and parks for that end otherwise |
| `PartitionService.ProduceIsAwaited` | internal/network/produce.go:107-163 | an acks=all produce is the produce and wait steps of the replicated partition, and a call that does not park is an acknowledgement |
| `PartitionService.AnsweredSurvives` | internal/network/produce.go:107-163 | an acks=all answer that did not park, while the registry ISR was seen in time: the batch is at its offset in the log of every later leader |
| `Durability.StaysHeld` | internal/network/failover.go:20-54 | what the registry ISR holds, it holds after any appends and failovers |
| `Durability.DurableIff` | internal/network/failover.go:20-54 | a batch is in the log of every later leader, for all histories, if and only if every registry-ISR member has it |
| `Durability.AckSurvives` | internal/network/failover.go:20-82 | an acknowledgement given while every registry-ISR follower was seen within the lag timeout survives every later failover at its offset |
| `Durability.AckedForever` | internal/network/failover.go:20-82 | the same over every run of any epoch and every sequence of failovers after it |
| `Durability.FirstEpoch` | internal/replication/manager.go:51-101 | a well-shaped partition with empty logs opens such an epoch |
| `Durability.ReignIsEpoch` | internal/network/failover.go:20-54 | after a failover that leaves nobody with a longer log than the new leader, every timely run is again such an epoch, and its ISR keeps all it had |
| `Durability.AckedThroughReigns` | internal/network/failover.go:20-82 | through any number of epochs, each with its own produces, fetches and acknowledgements: a batch acknowledged in any of them, while that epoch's ISR was seen in time, is at its offset in the log of every later leader |
| `Durability.LaggardLoses` | internal/replication/partition_state.go:120-144 | a concrete run in which a lagging ISR member becomes leader without the acknowledged batch |
| `Producer.EachSequenceOnce` | internal/producer/manager.go:62-111 | the stored batches of a producer tile the sequence numbers: each one below the next is in exactly one batch |
| `Producer.DecisionIs` | internal/producer/manager.go:80-103 | told from the log: appended exactly when the batch continues the stored sequence, a duplicate exactly when something is stored and it starts below, out of order otherwise |
| `Producer.ProduceIs` | internal/producer/manager.go:62-111 | a produce told from the log alone: what is appended, and which offset is answered |
| `Producer.ProduceAgrees` | internal/producer/manager.go:62-78 | a produce keeps the remembered progress equal to what the log says |
| `Producer.RunAgrees` | internal/producer/manager.go:62-111 | that agreement, and the tiling, over every run whose accepted batches count a record and leave room |
| `Producer.AcceptedOnceIff` | internal/producer/manager.go:62-111 | after an accepted batch all numbers below the next are stored once, no others, and the next is an int32 that will be taken, if and only if the batch counts a record and its end leaves room |
| `Producer.ExactlyOnceIff` | internal/producer/manager.go:62-111 | over every run exactly-once holds throughout if and only if every accepted batch counts a record and leaves room |
| `Producer.ResendLatest` | internal/producer/manager.go:89-92 | resending the latest batch appends nothing and answers the offset where the log holds it |
| `Producer.DuplicateOffsetIff` | internal/producer/manager.go:89-101 | a duplicate is answered with the offset of the resent batch if and only if it starts where the latest one starts |
| `Producer.OlderDuplicateAnswersLatest` | internal/producer/manager.go:96-101 | a concrete resend of an older batch that is answered with the latest offset |
| `Producer.DuplicateHeldIff` | internal/producer/manager.go:89-101 | a success without an append means that every record of the batch is stored if and only if the batch lies within the stored numbers or counts no record |
| `Producer.DuplicateDropsRecords` | internal/producer/manager.go:89-101 | a concrete longer resend and a concrete negative one that succeed while a record is stored nowhere |
| `Producer.NegativeCountStoresTwice` | internal/producer/manager.go:80-111 | a concrete run in which a negative record count stores sequence numbers twice |
| `Producer.ZeroCountDropsNext` | internal/producer/manager.go:80-111 | a concrete run in which a batch without records makes the next one a duplicate |
| `Producer.OverflowStoresNegative` | internal/producer/manager.go:80-111 | a concrete run that stores a batch under a negative sequence number |
| `Producer.RawIsValid` | internal/network/produce.go:165-176 | batches with any counts and a false length field pass validation |
| `Producer.StampKeepsFields` | internal/network/produce.go:98-111 | stamping keeps producer id, base sequence and record count |
| `Producer.BuiltIsValid` | internal/protocol/recordbatch.go:40-65 | a built batch passes the broker's validation, names no producer, and carries its record count, last delta, epochs and timestamps |
| `Producer.StampKeepsValid` | internal/network/produce.go:165-176 | stamping neither mends nor breaks a batch, and covered bytes with another checksum are refused |
| `Producer.OtherFormatRefused` | internal/network/produce.go:165-176 | another format or less than a header is refused |
| `Producer.Manager.InitProducerID` | internal/producer/manager.go:40-46 | ids count up from 1 and wrap at int64; the epoch is 0 |
| `Producer.Manager.AppendBatch` | internal/producer/manager.go:62-78 | check, append and commit move the memory and the log together, with the outcome told from the log alone |
| `Topics.AssignReplicas` | internal/topic/assign.go:6-19 | the nested loops give each partition its consecutive, wrapping replicas, or nothing for bad arguments |
| `Topics.ReplicasDistinct` | internal/topic/assign.go:6-19 | distinct brokers give distinct replicas while the factor does not exceed them |
| `Topics.LedByShare` | internal/topic/assign.go:6-19 | a broker starts a floor or ceiling share of the partitions |
| `Topics.CreatedBalanced` | internal/network/create_topics.go:60-80 | any two brokers lead numbers of a new topic's partitions that differ by at most one |
| `Topics.CreateTopic` | internal/network/create_topics.go:60-91 | the loops build what the value-level creation gives |
| `Topics.CreatedIs` | internal/network/create_topics.go:60-91 | created exactly when in range and the name is free, otherwise the first failing check; partitions numbered in order, replicas consecutive and wrapping, the first leading, all in sync |
| `Topics.NewPartitionShaped` | internal/network/create_topics.go:68-80 | a new partition is well shaped: distinct replicas, leader in the ISR, ISR within the replicas |
| `Topics.LiveISR` | internal/network/failover.go:67-82 | the loop and sort give the live ISR members in ascending order |
| `Topics.FailOverShaped` | internal/network/failover.go:20-42 | failing over keeps the shape; a replaced leader is the smallest live ISR member; without one nothing changes |
| `Topics.FailOverInherits` | internal/network/failover.go:26-42 | a partition that lost its leader and has a live ISR member is led by the smallest of them with exactly the live ones in sync; any other is unchanged |
| `MetadataCodec.RecordRoundTrip` | internal/cluster/metadatalog.go:95-153 | a record comes back if and only if its topic name is at most 32767 bytes |
| `MetadataCodec.RecordCut` | internal/cluster/metadatalog.go:111-153 | a record that is cut anywhere, or of another kind, does not decode |
| `MetadataCodec.EncodeRecord` | internal/cluster/metadatalog.go:95-109 | the writes produce the record bytes |
| `MetadataCodec.DecodeRecord` | internal/cluster/metadatalog.go:111-153 | the reads parse them, failing where the parser fails |
| `Metadata.OnPeerDown` | internal/network/failover.go:20-54 | only the controller commits records, those of the value-level failover |
| `Metadata.RecordedIff` | internal/network/failover.go:36-47 | a visited topic gets a record exactly when one of its partitions lost its leader and has a live ISR member |
| `Metadata.CommitFailsOver` | internal/network/failover.go:20-54 | after the commit no partition of a visited topic is led by the dead broker where a live ISR member exists, and no other partition changed |
| `Metadata.ReassignTopic` | internal/network/failover.go:26-41 | the in-place loop fails over every partition of the topic and reports a change |
| `Metadata.CommitReplays` | internal/network/metadata_record.go:5-12 | appending a record's bytes and applying the record agree with a replay |
| `Metadata.PullAllReplays` | internal/cluster/metadatafollower.go:52-96 | pulling payloads keeps a follower's registry the replay of its log |
| `Metadata.PullConverges` | internal/cluster/metadatafollower.go:52-96 | a pull brings a follower that many records closer, and one that brings all leaves it with the controller's log and registry |
| `Metadata.RecordsGood` | internal/network/create_topics.go:60-91 | whatever the controller commits is encodable and well shaped |
| `Metadata.TopicsAfter` | internal/network/metadata_record.go:5-12 | what each operation does to the controller's topics: a created one is there as asked, a deleted one is gone, a failover moves leads, and no other topic changes |
| `Metadata.StepKeepsIff` | internal/cluster/metadatafollower.go:52-96 | a create, delete, failover, pull or restart, from a log that may have lost its end, keeps the cluster invariant if and only if it is no restart of the controller that lost what a follower has pulled |
| `Metadata.RunKeeps` | internal/cluster/metadatafollower.go:52-96 | over every such run follower logs are prefixes of the controller's, registries are replays of their own logs, and partitions are well shaped |
| `Metadata.RunKeepsIff` | internal/cluster/metadatafollower.go:52-96 | over every run: in agreement at each moment if and only if no controller restart lost what a follower had pulled |
| `Metadata.ControllerLosesRecords` | internal/cluster/metadatalog.go:65-67 | a concrete run in which a follower is left with a record its controller lost |
| `Metadata.RestartRebuilds` | internal/cluster/metadatalog.go:65-67 | a restart through the byte codec that lost nothing changes nothing |
| `MetadataLogFile.ReadRawFrom` | internal/cluster/metadatalog.go:69-85 | the loop over segments returns all payloads from the offset |
| `MetadataLogFile.ReadFrom` | internal/cluster/metadatalog.go:49-63 | all records from the offset, or a failure if one does not decode |
| `MetadataLogFile.ReplayAll` | internal/cluster/metadatalog.go:65-67 | the replayed registry equals the fold of the log, and fails exactly when a payload does not decode |
| `MetadataLogFile.PullOnce` | internal/cluster/metadatafollower.go:52-96 | append-then-apply in a loop, stopping at a payload that does not decode |
| `Following.StartKeepsExclusive` | internal/replication/manager.go:51-101 | starting to follow keeps led and followed partitions disjoint |
| `Following.FetcherIs` | internal/replication/manager.go:51-101 | after a record a fetcher runs if and only if some entry prevails, and asks such an entry's leader |
| `Following.UpsertAgreesIff` | internal/network/apply_topic.go:32-41 | after a record all fetchers ask the current leaders if and only if the record's entries for each followed partition agree |
| `Following.RunFollows` | internal/network/apply_topic.go:32-41 | over all records: never led and followed at once, and fetchers agree with the registry while records are consistent |
| `Following.UpsertRoles` | internal/replication/manager.go:51-101 | after a record with distinct partitions each is led exactly when this broker leads it, or led before and follows nobody now, on the ISR of the record that began the lead; followed at its leader exactly when another known broker leads and this one is a replica |
| `Following.RunFits` | internal/replication/manager.go:51-101 | over all such records every partition of the registry is led or followed as it should be |
| `Following.TracksIff` | internal/replication/manager.go:54-66 | after a record the leader tracks the ISR of its partition exactly when it did not lead it before or tracked that ISR already |
| `Following.RunTracksIff` | internal/replication/manager.go:54-66 | over all well-shaped records: tracked on the registry ISR at each moment if and only if no record gives a partition another ISR while it is led here |
| `Following.LeadOpensEpoch` | internal/replication/manager.go:54-66 | a lead that begins with a record opens an epoch of its partition |
| `Following.LeadOpensReign` | internal/replication/manager.go:54-66 | after a failover the heir's state is the one its epoch opens with |
| `Following.RecreatedTracksOld` | internal/replication/manager.go:54-66 | a concrete topic, deleted and created again, whose leader tracks the old replicas |
| `Following.ClusterFollows` | internal/network/metadata_record.go:5-12 | for every broker of every metadata run, roles come from its own log, every partition of its registry is led or followed as it should be, and every fetcher asks the registry's leader |
| `Following.RepeatedIdDisagrees` | internal/replication/manager.go:79-83 | a concrete record with a repeated partition id that leaves a fetcher on the wrong leader |
| `Following.Manager.StartFollowing` | internal/replication/manager.go:51-101 | the loop leads, follows or skips each partition |
| `Following.Manager.StopFollowing` | internal/replication/manager.go:159-169 | exactly that fetcher is gone |
| `Following.Manager.ApplyTopic` | internal/network/apply_topic.go:32-41 | stops every listed partition's fetcher, then starts anew |
| `OffsetStore.EntryRoundTrip` | internal/offset/store.go:80-114 | an entry comes back if and only if both names are at most 32767 bytes |
| `OffsetStore.EntryCut` | internal/offset/store.go:80-114 | an entry that is cut anywhere does not decode |
| `OffsetStore.Replay` | internal/offset/store.go:59-78 | the loop over segments ends with the last-write-wins fold of the whole log, and fails exactly when an entry does not decode |
| `OffsetStore.Store.Commit` | internal/offset/store.go:35-46 | appends the entry, updates the map, and keeps the map equal to the replay for names that fit |
| `OffsetStore.Store.Fetch` | internal/offset/store.go:48-57 | the last committed value in the log for the key, or -1 |
| `OffsetStore.FoldIsCommitted` | internal/offset/store.go:59-78 | a lookup in the fold is the last entry for the key |
| `OffsetStore.FetchSurvives` | internal/offset/store.go:35-78 | after any commits and reopenings, lookups answer the last surviving commit or -1 |
| `GroupModel.GenerationGrows` | internal/group/coordinator.go:262-272 | completing a join raises the generation if and only if the int32 counter has room |
| `GroupModel.StepShaped` | internal/group/coordinator.go:122-394 | every step keeps the group in shape: join order lists the members once, empty exactly without members, a leader is the first in join order |
| `GroupModel.Run` | internal/group/coordinator.go:122-394 | every run, stale timers included and however long, keeps the group in shape |
| `GroupModel.StepKeeps` | internal/group/coordinator.go:122-394 | only a completed join of a non-empty group raises the generation, by one, and the announcements stay in agreement |
| `GroupModel.CompleteKeeps` | internal/group/coordinator.go:262-304 | each generation announces one leader and one protocol, and only the leader's result lists the members, all of them |
| `GroupModel.RunKeeps` | internal/group/coordinator.go:122-394 | over every run the generation counts the completed joins and the announcements agree, while the counter has room |
| `GroupModel.GenerationsRiseIff` | internal/group/coordinator.go:262-272 | over every run generations never decrease if and only if fewer than 2^31 joins complete |
| `GroupModel.GenerationWraps` | internal/group/coordinator.go:262-272 | a concrete run, one join and 2^31 firings of the join timer, in which the generation falls |
| `GroupModel.RemoveKeeps` | internal/group/coordinator.go:338-394 | leaving or timing out keeps join order, leader and emptiness in step |
| `GroupModel.SyncKeeps` | internal/group/coordinator.go:155-207 | a Sync keeps the shape in every phase |
| `GroupModel.JoinIs` | internal/group/coordinator.go:122-149 | a join brings its member, last in the order if it is new, with empty channels, starts a rebalance, and changes nobody else |
| `GroupModel.RemoveIs` | internal/group/coordinator.go:355-394 | removing a member takes it out and nothing else, starts a rebalance if others are left, and empties leader and protocol otherwise |
| `GroupModel.WithoutKeepsOrder` | internal/group/coordinator.go:355-362 | those who stay keep their places in the join order |
| `GroupModel.PreparingIff` | internal/group/coordinator.go:122-394 | over every run a group with members prepares a rebalance exactly while a change of its membership is not settled by a completed join or the leader's Sync |
| `GroupModel.RebalanceToldIff` | internal/group/coordinator.go:220-241 | over every run a member's heartbeat, of any generation, is answered with the rebalance exactly then |
| `GroupModel.LeaderSyncIs` | internal/group/coordinator.go:172-194 | the leader's Sync gives each member what was sent for it or leaves it what it had, and offers that to every other member whose channel is empty |
| `GroupModel.AssignedAsSent` | internal/group/coordinator.go:131-142 | over every run, rejoins included, a member's assignment is what a leader last sent for it since it came |
| `GroupModel.MembersAsOffered` | internal/group/coordinator.go:131-142 | over every run each member has the first protocol, metadata and timeout of its last join |
| `GroupModel.CompleteAnnounces` | internal/group/coordinator.go:262-304 | one result for each member in join order, of the new generation, with its leader and protocol; the leader's lists all members with their metadata, the others' none |
| `GroupModel.AnnouncedAsOffered` | internal/group/coordinator.go:262-304 | over every run the leader is told the metadata of each member's last join, and everybody the protocol of the leader's |
| `GroupModel.JoinedAreWoken` | internal/group/coordinator.go:137-152 | a parked Join is woken by the first join that completes after it, with its own result of that generation |
| `GroupTimers.StaysWatched` | internal/group/coordinator.go:122-394 | every event keeps the join timer pending during a rebalance and a session timer on every member otherwise |
| `GroupTimers.NobodyForgotten` | internal/group/coordinator.go:122-394 | in every reachable group each member has a session timer, or the join timer that ends its wait is pending |
| `GroupTimers.TimedIsRun` | internal/group/coordinator.go:122-394 | with its timers a group goes through a run of its own transitions |
| `GroupModel.RepliesAreSent` | internal/group/coordinator.go:155-207 | after an opening with clean channels, and while membership holds, every reply is what the leader sent for that member, stale timers included |
| `GroupModel.LeadersWordIff` | internal/group/coordinator.go:172-194 | that holds for every quiet run if and only if no Sync channel but the leader's own, which nobody reads, opens the generation holding something else |
| `GroupModel.EveryoneIsServed` | internal/group/coordinator.go:196-207 | after the leader's Sync, every member's Sync of that generation is answered at once |
| `GroupModel.ParkedAreWoken` | internal/group/coordinator.go:182-194 | a member whose Sync parked before the leader's is woken with what the leader sent, however many steps later it receives |
| `GroupModel.RejoinedAreSilent` | internal/group/coordinator.go:137-142 | a member that joined since the leader's last accepted Sync has an empty Sync channel; parked and refused Syncs do not matter |
| `GroupModel.RebalanceIsSilent` | internal/group/coordinator.go:262-304 | if every member rejoined before the timer and no Sync of the leader was accepted, the next generation opens with all Sync channels empty |
| `GroupModel.EarlySyncIsStale` | internal/group/coordinator.go:172-194 | a leader that syncs before the join completes leaves a newcomer with an answer that is not the leader's word |
| `GroupModel.EarlySyncHappens` | internal/group/coordinator.go:122-153 | a concrete run that reaches a group with such a leader |
| `Coordinator.MemberID` | internal/group/coordinator.go:396-402 | a generated member id is never empty |
| `Coordinator.DigitsRead` | internal/group/coordinator.go:396-402 | the decimal text of the counter stands for it |
| `Coordinator.MemberIDsDiffer` | internal/group/coordinator.go:396-402 | ids generated from different counters differ, whoever the clients are |
| `Coordinator.Filter` | internal/group/coordinator.go:355-362 | the filter loop removes exactly that id from the join order |
| `Coordinator.SendAll` | internal/group/coordinator.go:282-303 | each member's own result is offered without blocking |
| `Coordinator.ListMembers` | internal/group/coordinator.go:275-280 | the leader's member list in join order |
| `Coordinator.Complete` | internal/group/coordinator.go:262-304 | refines the completed join |
| `Coordinator.Assign` | internal/group/coordinator.go:173-177 | the assignments of present members are replaced, the others kept |
| `Coordinator.FanOut` | internal/group/coordinator.go:182-190 | every member but the caller is offered its assignment without blocking |
| `Coordinator.Coordinator.Join` | internal/group/coordinator.go:122-153 | refines the join step for the named or generated member, touching no other group |
| `Coordinator.Coordinator.Sync` | internal/group/coordinator.go:155-207 | refines the sync step, touching no other group; which refusal is answered, and when the call parks, exactly |
| `Coordinator.Coordinator.Heartbeat` | internal/group/coordinator.go:220-241 | each error code exactly when it applies |
| `Coordinator.Coordinator.Leave` | internal/group/coordinator.go:243-260 | refines removal, with the error for an unknown member |
| `Coordinator.Coordinator.CompleteJoin` | internal/group/coordinator.go:262-304 | a timer, current or stale, completes the join of that group only |
| `Assignor.SortedTopics` | internal/assignor/assignor.go:70-77 | the topics of the map, each once, in order |
| `Assignor.LeqIff` | internal/assignor/assignor.go:70-86 | names are ordered byte by byte, a prefix first |
| `Assignor.SubscribersAre` | internal/assignor/assignor.go:88-106 | exactly the members that list the topic, each once for distinct members |
| `Assignor.ContiguousPartitions` | internal/assignor/assignor.go:108-114 | the partitions from start up to end |
| `Assignor.RangeTopic` | internal/assignor/assignor.go:22-44 | one topic adds exactly each subscriber's turns, several for a repeated id |
| `Assignor.Range` | internal/assignor/assignor.go:18-47 | the nested loops give each member its share of every topic |
| `Assignor.RangeExact` | internal/assignor/assignor.go:18-47 | each partition of a subscribed topic belongs to exactly one member, a subscriber |
| `Assignor.RangeOnly` | internal/assignor/assignor.go:18-47 | nothing else is assigned |
| `Assignor.RangeContiguous` | internal/assignor/assignor.go:18-47 | each member has each topic at most once, as a contiguous run |
| `Assignor.RangeFair` | internal/assignor/assignor.go:27-44 | two subscribers' shares of a topic are intervals whose lengths differ by at most one |
| `Assignor.RoundRobin` | internal/assignor/assignor.go:50-68 | the loops deal the laid-out partitions in turn to the sorted members |
| `Assignor.RoundRobinExact` | internal/assignor/assignor.go:50-68 | every partition is dealt to exactly one member |
| `Assignor.RoundRobinOnly` | internal/assignor/assignor.go:50-68 | nothing else is dealt |
| `Assignor.RoundRobinFair` | internal/assignor/assignor.go:50-68 | member totals differ by at most one |
| `Assignor.RoundRobinOnceEach` | internal/assignor/assignor.go:50-68 | what a member is given names each topic at most once |
| `Assignor.DealtOnceEach` | internal/assignor/assignor.go:116-123 | appending partition by partition groups a member's deal by topic, without repeats |
| `AssignmentCodec.AssignmentRoundTrip` | internal/assignor/codec.go:12-62 | an encoded assignment decodes to itself |
| `AssignmentCodec.BlobCutIff` | internal/assignor/codec.go:29-62 | a cut blob decodes to the assignment if only user data is lost, to no assignment if nothing is left, and fails otherwise |
| `AssignmentCodec.EncodeAssignment` | internal/assignor/codec.go:12-25 | the writes produce the blob |
| `AssignmentCodec.DecodeAssignment` | internal/assignor/codec.go:29-62 | the reads parse the blob; an empty one is no assignment |
| `GroupAssignment.RepliesDecode` | internal/group/coordinator.go:155-207 | whatever a member receives decodes to its part of the leader's plan |
| `GroupAssignment.RangeDelivers` | internal/group/coordinator.go:155-304 | Range end to end: after a full rejoin, whatever is received gives each partition of a subscribed topic to one subscriber only, and that one's Sync is answered with it once the leader has synced, or woken with it if it parked before |
| `GroupAssignment.RoundRobinDelivers` | internal/group/coordinator.go:155-304 | RoundRobin end to end: whatever is received gives each partition to one member only, and that one's Sync is answered with it once the leader has synced, or woken with it if it parked before |
| `GroupAssignment.RejoinHappens` | internal/group/coordinator.go:122-153 | such generations are reachable: one member joins an unused group |
| `Liveness.CounterRefines` | internal/cluster/liveness.go:137-167 | alive if and only if the trailing run of misses is shorter than failAfter; callbacks strictly alternate from onDown |
| `Liveness.OneController` | internal/cluster/liveness.go:79-90 | equal live sets name the same controller |
| `Liveness.LivenessMonitor.constructor` | internal/cluster/liveness.go:32-54 | all members start alive; failAfter is at least 1 |
| `Liveness.LivenessMonitor.RecordMiss` | internal/cluster/liveness.go:137-151 | refines a missed ping of one peer; reports the moment it goes down |
| `Liveness.LivenessMonitor.RecordSuccess` | internal/cluster/liveness.go:153-167 | refines an answered ping of one peer; reports the moment it comes back |
| `Liveness.LivenessMonitor.Alive` | internal/cluster/liveness.go:70-77 | self always; a member by its trailing misses; nobody else |
| `Liveness.LivenessMonitor.ControllerID` | internal/cluster/liveness.go:79-90 | the highest live member id, or -1 |

## Left out

- Storage.Log.AppendWithOffset: asks for payloads under 2^32 bytes and offsets below 2^63 - 1, where the length field and the offset would wrap; a write that fails midway, fsync and file handles are not modelled.
- Storage.Log.Open: takes the segment files in ascending order of base offset; listing and parsing file names is not modelled.
- RecordBatch.RecordRoundTrip: record bodies under 2^31 bytes, where the int32 length field would wrap.
- RecordBatch.DecodeBatch: a negative record count, on which the Go code panics, is a failure here.
- Replication.SafeIff: within one leader epoch, logs of fewer than 2^63 batches; an append that fails midway is a delivery that stops early.
- Replication.SucceedSafeIff: nothing is under way when an epoch opens; an answer of the old leader that arrives in the new epoch is not modelled.
- Durability.AckedForever: logs only grow, so a follower crash that cuts an acknowledged tail is not part of it.
- Producer.ExactlyOnceIff: a broker restart, which forgets the producers, is not modelled.
- PartitionService.FetchPartition: opening the partition's log always succeeds.
- PartitionService.ProducePartition: returns where the call parks; the parked wait ends in the steps of Replication.
- Producer.Manager.AppendBatch: an append that fails is not modelled.
- Producer.RunAgrees: accepted batches count a record and leave room; what happens otherwise is Producer.ExactlyOnceIff.
- Producer.ProduceAgrees: the same for one produce, and Producer.AcceptedOnceIff.
- PartitionService.AppendBatches: every append succeeds; one that fails midway is a shorter delivery in Replication.
- PartitionService.Store: an append that fails is not modelled.
- PartitionService.StoreAndWait: an append that fails is not modelled.
- MetadataCodec.DecodeRecord: a negative array length is a failure, as in Wire.ReadArray.
- AssignmentCodec.DecodeAssignment: a negative array length is a failure, as in Wire.ReadArray.
- GroupModel.StepKeeps: the generation has a successor; where it wraps is GroupModel.GenerationGrows.
- GroupModel.CompleteKeeps: the same for one completed join.
- GroupModel.RunKeeps: fewer than 2^31 completed joins; beyond them is GroupModel.GenerationsRiseIff.
- Metadata.RunKeeps: one fixed controller; two controllers with unequal logs are not modelled.
- OffsetStore.Store.Commit: asks for names under 2^31 - 32 bytes, which memory implies.
- Coordinator.Filter: the join order is a sequence that is rebuilt, not a slice filtered over its own array; that form is in Watermark.PartitionState.
- Coordinator.Coordinator.Join: returns when the member is parked; the result is what TakeJoin receives in GroupModel. Session and join timers are not fields of the class: arming and stopping them is in GroupTimers.
- Coordinator.Complete: arming session timers is in GroupTimers.
- Coordinator.Coordinator.Sync: returns when the member is parked; session timers are in GroupTimers.
- Coordinator.Coordinator.Heartbeat: session timers are in GroupTimers.
- Coordinator.Coordinator.Leave: timers are in GroupTimers.
- Coordinator.Coordinator.CompleteJoin: timers are in GroupTimers.
- GroupTimers.NobodyForgotten: a timer that has fired and waits for the lock while the member is heard from is not modelled.
- GroupModel.RepliesAreSent: holds while nobody joins or leaves; a receive from a full channel may happen whether or not a call is parked on it.
- GroupAssignment.RangeDelivers: topic names up to 32767 bytes and fewer than 2^31 topics and partitions of each, which the blob's fields need.
- GroupAssignment.RoundRobinDelivers: fewer than 2^31 partitions altogether.
- Assignor.Range: partition counts are not negative; a negative count makes the Go code assign nothing or panic.
- Assignor.RoundRobin: partition counts are not negative, as for Range.
- Following.Manager.StartFollowing: opening the local log always succeeds; what a cancelled fetcher's last request does is in Replication.
- Wire.ReadArray: a negative array length, on which the Go code panics, is a failure here.
- Wire.UvarintRoundTrip: the bitwise-or of disjoint groups is written as an addition.
- CRC32C is an uninterpreted function of the bytes it covers: its arithmetic plays no part in what is proved.
- TCP, framing, request dispatch, ApiVersions, FindCoordinator and the decode loops of the handlers: they only unpack requests for the operations that are modelled.
- The test client, the HTTP API, the web pages, fault injection and the informational views: they call the operations that are modelled and keep no state of their own that other parts rely on.
- Compact strings, compact arrays and tag buffers: no handler uses them.
- Progress of parked calls beyond GroupModel.ParkedAreWoken: a member removed while parked never gets a reply, so there is nothing to prove.
