/** Serving one partition: a follower's fetch, the follower's append, a produce. */
module PartitionService {
  import opened Wire
  import opened LogFiles
  import opened RecordBatch
  import opened Storage
  import opened Watermark
  import LogModel
  import Producer
  import Replication
  import Durability
  import Metadata
  import Topics

  const ErrNone := 0
  const ErrOffsetOutOfRange := 1
  const ErrCorruptMessage := 2
  const ErrUnknownTopicOrPartition := 3
  const ErrNotLeaderForPartition := 6
  const ErrOutOfOrderSequenceNumber := 45

  predicate Known(registry: Topics.Registry, at: Producer.Place) {
    at.topic in registry && 0 <= at.partition < |registry[at.topic]|
  }

  /** Where partitions are listed under their own ids, a partition is known exactly when
      the topic lists its id, and it is looked up at that id. */
  lemma KnownIs(registry: Topics.Registry, at: Producer.Place)
    requires Metadata.GoodRegistry(registry)
    ensures Known(registry, at) <==>
            && at.topic in registry
            && exists i :: 0 <= i < |registry[at.topic]| && registry[at.topic][i].id == at.partition
    ensures Known(registry, at) ==> registry[at.topic][at.partition].id == at.partition
  {
    hide Topics.WellShaped;
    if Known(registry, at) { assert registry[at.topic][at.partition].id == at.partition; }
  }

  function Payloads(es: seq<Entry>): (ps: seq<Bytes>)
    ensures |ps| == |es|
  {
    seq(|es|, i requires 0 <= i < |es| => es[i].payload)
  }

  lemma {:induction false} JoinSnoc(bs: seq<Bytes>, b: Bytes)
    ensures Join(bs + [b]) == Join(bs) + b
  {
    if bs == [] { assert [b][1..] == []; }
    else {
      JoinSnoc(bs[1..], b);
      assert (bs + [b])[1..] == bs[1..] + [b];
    }
  }

  method JoinRecordPayloads(records: seq<Entry>) returns (out: Bytes)
    ensures out == Join(Payloads(records))
  {
    out := [];
    for i := 0 to |records|
      invariant out == Join(Payloads(records)[..i])
    {
      JoinSnoc(Payloads(records)[..i], records[i].payload);
      assert Payloads(records)[..i + 1] == Payloads(records)[..i] + [records[i].payload];
      out := out + records[i].payload;
    }
    assert Payloads(records)[..|records|] == Payloads(records);
  }

  /** A read that starts at an offset holds the log's own batches from there. */
  lemma CutIsSlice(records: seq<Entry>, contents: seq<Bytes>, offset: nat, end: nat, maxBytes: int)
    requires offset <= end <= |contents| &&
             CutAt(records, LogModel.EntriesFrom(offset, contents[offset..end]), maxBytes)
    ensures offset + |records| <= |contents| && Payloads(records) == contents[offset..offset + |records|]
  {}

  /** What a fetch does to the leader's state: the follower is noted, if it is one,
      and the watermark brought up to the log end. */
  function FetchSteps(replicaID: int, fetchOffset: int, end: int, seen: int, recordedAt: int, readAt: int): seq<Op> {
    (if replicaID >= 0 then [FetchOp(replicaID, fetchOffset, end, seen, recordedAt)] else []) +
    [WatermarkOp(end, readAt)]
  }

  lemma FetchRuns(s: State, replicaID: int, fetchOffset: int, end: int, seen: int, recordedAt: int, readAt: int)
    ensures var noted := if replicaID >= 0 then RecordFetch(s, replicaID, fetchOffset, end, seen, recordedAt) else s;
            var s' := SetLeaderEnd(noted, end, readAt);
            && Run(s, FetchSteps(replicaID, fetchOffset, end, seen, recordedAt, readAt)) == s'
            && FollowerNoted(s.offsets, s'.offsets, replicaID, fetchOffset, seen)
            && s'.offsets.leaderEnd == end && IsWatermark(s'.offsets, readAt, s'.offsets.high)
  {
    hide WatermarkOver, Filter, Refresh, FollowerNoted, IsWatermark;
    var ops := FetchSteps(replicaID, fetchOffset, end, seen, recordedAt, readAt);
    var noted := if replicaID >= 0 then RecordFetch(s, replicaID, fetchOffset, end, seen, recordedAt) else s;
    assert ops[..|ops| - 1] == if replicaID >= 0 then [ops[0]] else [];
    if replicaID >= 0 { assert [ops[0]][..0] == []; }
    assert Run(s, ops[..|ops| - 1]) == noted;
    FetchNotes(s, replicaID, fetchOffset, end, seen, recordedAt, readAt);
  }

  lemma FetchNotes(s: State, replicaID: int, fetchOffset: int, end: int, seen: int, recordedAt: int, readAt: int)
    ensures var noted := if replicaID >= 0 then RecordFetch(s, replicaID, fetchOffset, end, seen, recordedAt) else s;
            var s' := SetLeaderEnd(noted, end, readAt);
            && FollowerNoted(s.offsets, s'.offsets, replicaID, fetchOffset, seen)
            && s'.offsets.leaderEnd == end && IsWatermark(s'.offsets, readAt, s'.offsets.high)
  {
    hide WatermarkOver, Refresh, IsWatermark;
    var noted := if replicaID >= 0 then RecordFetch(s, replicaID, fetchOffset, end, seen, recordedAt) else s;
    if replicaID >= 0 { StepOffsets(s, FetchOp(replicaID, fetchOffset, end, seen, recordedAt)); }
    StepOffsets(noted, WatermarkOp(end, readAt));
    var o := noted.offsets.(leaderEnd := end);
    RecomputedIs(o, readAt);
    SameWatermark(o, Recomputed(o, readAt), readAt);
  }

  /** The follower stands at the offset it asked from, and nobody else has moved. */
  ghost predicate FollowerNoted(o: Offsets, o': Offsets, replicaID: int, fetchOffset: int, seen: int) {
    forall b :: OffsetOf(o', b) == (if b == replicaID >= 0 then fetchOffset else OffsetOf(o, b)) &&
                (b in o'.followerSeen <==> b in o.followerSeen || b == replicaID >= 0) &&
                (b in o'.followerSeen ==>
                   o'.followerSeen[b] == if b == replicaID >= 0 then seen else o.followerSeen[b])
  }

  /** One partition of a fetch: the follower is recorded before the range check,
      and what is sent is the leader's own batches from the asked offset. */
  method FetchPartition(registry: Topics.Registry, at: Producer.Place, log: Log, state: PartitionState?, replicaID: int,
                        fetchOffset: int, maxBytes: int, seen: int, recordedAt: int, readAt: int)
    returns (error: int, high: int, bytes: Bytes, ghost count: nat)
    requires log.Valid() && (state != null ==> state.Valid())
    modifies state, if state == null then {} else {state.waiters}
    ensures state != null ==> state.Valid() && state.waiters == old(state.waiters)
    ensures !Known(registry, at) ==> error == ErrUnknownTopicOrPartition && high == 0 && count == 0
    ensures !Known(registry, at) && state != null ==> state.View() == old(state.View())
    ensures Known(registry, at) && state != null ==>
              && state.View() == Run(old(state.View()),
                   FetchSteps(replicaID, fetchOffset, |log.contents|, seen, recordedAt, readAt))
              && FollowerNoted(old(state.View()).offsets, state.View().offsets, replicaID, fetchOffset, seen)
              && high == state.View().offsets.high && IsWatermark(state.View().offsets, readAt, high)
              && state.View().offsets.leaderEnd == |log.contents|
    ensures Known(registry, at) && state == null ==> high == |log.contents|
    ensures Known(registry, at) ==>
              && error == (if 0 <= fetchOffset <= |log.contents| then ErrNone else ErrOffsetOutOfRange)
              && (count > 0 <==> 0 <= fetchOffset < |log.contents|)
    ensures count > 0 ==>
              fetchOffset + count <= |log.contents| && bytes == Join(log.contents[fetchOffset..fetchOffset + count])
    ensures count == 0 ==> bytes == []
  {
    hide LogModel.Holds, SetLeaderEnd, RecordFetch, Run, FollowerNoted, IsWatermark, Views, Join;
    if !Known(registry, at) { return ErrUnknownTopicOrPartition, 0, [], 0; }
    var endOffset := log.nextOffset;
    EndIs(log);
    if state != null {
      FetchRuns(state.View(), replicaID, fetchOffset, endOffset, seen, recordedAt, readAt);
    }
    if replicaID >= 0 && state != null {
      state.RecordFollowerFetch(replicaID, fetchOffset, endOffset, seen, recordedAt);
    }
    high := endOffset;
    if state != null { high := state.HighWatermark(endOffset, readAt); }
    error, bytes, count := ReadBatches(log, fetchOffset, maxBytes);
  }

  /** The range check and the read. */
  method ReadBatches(log: Log, fetchOffset: int, maxBytes: int) returns (error: int, bytes: Bytes, ghost count: nat)
    requires log.Valid()
    ensures error == if 0 <= fetchOffset <= |log.contents| then ErrNone else ErrOffsetOutOfRange
    ensures count > 0 <==> 0 <= fetchOffset < |log.contents|
    ensures count > 0 ==>
            fetchOffset + count <= |log.contents| && bytes == Join(log.contents[fetchOffset..fetchOffset + count])
    ensures count == 0 ==> bytes == []
  {
    hide LogModel.Holds, CutAt, Views, Join;
    EndIs(log);
    if fetchOffset < 0 || fetchOffset > log.nextOffset { return ErrOffsetOutOfRange, [], 0; }
    error, bytes, count := ErrNone, [], 0;
    if fetchOffset == log.nextOffset { return; }
    var records, owner := log.Read(fetchOffset, maxBytes);
    CutIsSlice(records, log.contents, fetchOffset, LogModel.SegmentEnd(log.View(), owner), maxBytes);
    bytes := JoinRecordPayloads(records);
    count := |records|;
  }

  lemma EndIs(log: Log)
    requires log.Valid()
    ensures log.nextOffset == |log.contents|
  {}

  /** fetchOnce after the response arrived: the follower appends what it splits. */
  method AppendBatches(log: Log, bytes: Bytes)
    requires log.Valid() && |bytes| < TwoTo31 && log.nextOffset + |bytes| < TwoTo63 - 1
    modifies log, log.segments
    ensures log.Valid()
    ensures forall k :: 0 <= k < |log.segments| ==> log.segments[k] in old(log.segments) || fresh(log.segments[k])
    ensures log.contents == old(log.contents) + Split(bytes)
  {
    hide LogModel.Holds, Split, Views;
    var batches := SplitBatches(bytes);
    SplitSizes(bytes);
    for i := 0 to |batches|
      invariant log.Valid()
      invariant forall k :: 0 <= k < |log.segments| ==> log.segments[k] in old(log.segments) || fresh(log.segments[k])
      invariant log.nextOffset == old(log.nextOffset) + i
      invariant log.contents == old(log.contents) + batches[..i]
    {
      var _ := log.AppendWithOffset(batches[i], false);
    }
  }

  lemma {:induction false} SplitSizes(b: Bytes)
    ensures |Split(b)| <= |b| && forall i :: 0 <= i < |Split(b)| ==> |Split(b)[i]| <= |b|
    decreases |b|
  {
    hide GetBigEndian;
    if |b| >= 12 && TotalLength(b) <= |b| { SplitSizes(b[TotalLength(b)..]); }
  }

  /** A follower that appends a whole response to the leader's log prefix it
      asked from ends with a longer prefix. */
  lemma FetchedIsPrefix(leader: seq<Bytes>, from: nat, count: nat)
    requires from + count <= |leader| && forall x :: x in leader ==> Honest(x)
    ensures leader[..from] + Split(Join(leader[from..from + count])) == leader[..from + count]
  {
    hide Honest, Split, Join;
    forall x | x in leader[from..from + count] ensures Honest(x) { assert x in leader; }
    Replication.SplitsBack(leader[from..from + count]);
  }

  /** Append under the producer's sequence check, or plainly without a producer id. */
  method Store(producers: Producer.Manager, log: Log, at: Producer.Place, batch: Bytes, ghost s: Producer.State)
    returns (check: Producer.Check)
    requires |batch| >= HeaderSize && |batch| < TwoTo32 && log.Valid() && log.nextOffset < TwoTo63 - 1
    requires s.seqs == producers.seqs && Producer.LogOf(s, at) == log.contents
    modifies producers`seqs, log, log.segments
    ensures log.Valid()
    ensures var (s', c) := Producer.Produce(s, at, batch);
            check == c && producers.seqs == s'.seqs && log.contents == Producer.LogOf(s', at)
    ensures Producer.AgreesFor(s, at, batch) ==> Producer.Told(old(log.contents), log.contents, batch, check)
    ensures if check.decision == Producer.Append then
              log.contents == old(log.contents) + [Stamp(batch, |old(log.contents)|)] &&
              check.cachedOffset == |old(log.contents)|
            else log.contents == old(log.contents)
  {
    hide LogModel.Holds, Producer.Told, Producer.AgreesFor, Producer.CheckSequence, Producer.Pid,
         Producer.BaseSequence, Producer.RecordCount, Producer.After, Stamp;
    if Producer.AgreesFor(s, at, batch) { Producer.ProduceIs(s, at, batch); }
    if Producer.Pid(batch) >= 0 {
      check := producers.AppendBatch(at, batch, log, s);
    } else {
      var baseOffset := log.AppendWithOffset(batch, true);
      check := Producer.Check(Producer.Append, baseOffset);
    }
  }

  /** The partition exists, is led here, and the batch is intact. */
  ghost predicate Admitted(registry: Topics.Registry, at: Producer.Place, self: int, batch: Bytes, crc: Bytes -> nat) {
    Known(registry, at) && registry[at.topic][at.partition].leader == self && Producer.ValidRecordBatch(batch, crc)
  }

  /** The answer to a batch that was let in, and what it did to the log, told from
      the log before: it went in at the end, the producer had sent it before, or its
      sequence has a gap. */
  ghost predicate Answered(log: seq<Bytes>, log': seq<Bytes>, batch: Bytes, error: int, baseOffset: int)
    requires |batch| >= HeaderSize
  {
    if Producer.Continuation(log, batch) then
      log' == log + [Stamp(batch, |log|)] && error == ErrNone && baseOffset == |log|
    else
      && log' == log
      && if Producer.Repeats(log, batch) then
           error == ErrNone && Producer.LatestAt(log, Producer.Pid(batch), baseOffset)
         else error == ErrOutOfOrderSequenceNumber && baseOffset == -1
  }

  /** The log grew by the stamped batch, at the offset that is answered. */
  ghost predicate Grew(log: seq<Bytes>, log': seq<Bytes>, batch: Bytes, error: int, baseOffset: int)
    requires |batch| >= HeaderSize
  {
    log' == log + [Stamp(batch, |log|)] && error == ErrNone && baseOffset == |log|
  }

  /** Every follower that is in sync has asked from that offset or beyond. */
  ghost predicate AllHave(o: Offsets, now: int, end: int) { forall b :: Bounds(o, b, now) ==> end <= OffsetOf(o, b) }

  /** The wait for a log end: over if everyone has it, parked for exactly it if not. */
  ghost predicate Waits(s: State, s': State, end: int, now: int, parked: bool) {
    && s' == Wait(s, end, now)
    && (if parked then s'.offsets.high < end && Waiter(s.nextId, end) in s'.waiters else AllHave(s'.offsets, now, end))
  }

  lemma WaitIs(s: State, end: int, now: int)
    ensures Waits(s, Wait(s, end, now), end, now, Wait(s, end, now).offsets.high < end)
  {
    hide Filter, WatermarkOver;
    var s' := Wait(s, end, now);
    var o := s.offsets.(leaderEnd := if end > s.offsets.leaderEnd then end else s.offsets.leaderEnd);
    RecomputedIs(o, now);
    SameWatermark(o, Recomputed(o, now), now);
    if s'.offsets.high < end { assert s'.waiters[|s'.waiters| - 1] == Waiter(s.nextId, end); }
  }

  /** One partition of a produce, up to the point where it parks: only a batch
      that was appended waits, and only with acks -1 on a partition that is led here. */
  method ProducePartition(registry: Topics.Registry, self: int, producers: Producer.Manager, log: Log,
                          state: PartitionState?, at: Producer.Place, batch: Bytes,
                          acks: int, now: int, crc: Bytes -> nat, ghost s: Producer.State)
    returns (error: int, baseOffset: int, parked: bool)
    requires |batch| < TwoTo32 && log.Valid() && log.nextOffset < TwoTo63 - 1 && (state != null ==> state.Valid())
    requires s.seqs == producers.seqs && Producer.LogOf(s, at) == log.contents
    modifies producers`seqs, log, log.segments, state, if state == null then {} else {state.waiters}
    ensures log.Valid() && (state != null ==> state.Valid())
    ensures !Known(registry, at) ==> error == ErrUnknownTopicOrPartition
    ensures Known(registry, at) && registry[at.topic][at.partition].leader != self ==> error == ErrNotLeaderForPartition
    ensures Known(registry, at) && registry[at.topic][at.partition].leader == self ==>
              (!Producer.ValidRecordBatch(batch, crc) ==> error == ErrCorruptMessage)
    ensures !Admitted(registry, at, self, batch, crc) ==>
              baseOffset == -1 && !parked && log.contents == old(log.contents) && producers.seqs == s.seqs
    ensures Admitted(registry, at, self, batch, crc) ==>
              && |batch| >= HeaderSize
              && producers.seqs == Producer.Produce(s, at, batch).0.seqs
              && (log.contents == old(log.contents) || Grew(old(log.contents), log.contents, batch, error, baseOffset))
              && (Producer.AgreesFor(s, at, batch) ==>
                    Answered(old(log.contents), log.contents, batch, error, baseOffset))
    ensures state != null ==>
              if acks == -1 && |log.contents| > |old(log.contents)| then
                Waits(old(state.View()), state.View(), |log.contents|, now, parked)
              else state.View() == old(state.View()) && !parked
    ensures state == null ==> !parked
  {
    hide LogModel.Holds, Producer.Produce, Wait, Waits, Producer.ValidRecordBatch, Producer.AgreesFor, Answered, Views;
    if !Known(registry, at) { return ErrUnknownTopicOrPartition, -1, false; }
    if registry[at.topic][at.partition].leader != self { return ErrNotLeaderForPartition, -1, false; }
    if !Producer.ValidRecordBatch(batch, crc) { return ErrCorruptMessage, -1, false; }
    ValidIsLong(batch, crc);
    error, baseOffset, parked := StoreAndWait(producers, log, state, at, batch, acks, now, s);
  }

  lemma ValidIsLong(batch: Bytes, crc: Bytes -> nat)
    requires Producer.ValidRecordBatch(batch, crc)
    ensures |batch| >= HeaderSize
  {}

  /** A batch that passed: stored or answered by the sequence check, and then the wait. */
  method StoreAndWait(producers: Producer.Manager, log: Log, state: PartitionState?, at: Producer.Place, batch: Bytes,
                      acks: int, now: int, ghost s: Producer.State)
    returns (error: int, baseOffset: int, parked: bool)
    requires HeaderSize <= |batch| < TwoTo32 && log.Valid() && log.nextOffset < TwoTo63 - 1
    requires s.seqs == producers.seqs && Producer.LogOf(s, at) == log.contents && (state != null ==> state.Valid())
    modifies producers`seqs, log, log.segments, state, if state == null then {} else {state.waiters}
    ensures log.Valid() && (state != null ==> state.Valid())
    ensures producers.seqs == Producer.Produce(s, at, batch).0.seqs
    ensures log.contents == old(log.contents) || Grew(old(log.contents), log.contents, batch, error, baseOffset)
    ensures Producer.AgreesFor(s, at, batch) ==>
              Answered(old(log.contents), log.contents, batch, error, baseOffset)
    ensures state != null ==>
              if acks == -1 && |log.contents| > |old(log.contents)| then
                Waits(old(state.View()), state.View(), |log.contents|, now, parked)
              else state.View() == old(state.View()) && !parked
    ensures state == null ==> !parked
  {
    hide LogModel.Holds, Producer.Produce, Producer.AgreesFor, Producer.Continuation, Producer.Repeats,
         Producer.LatestAt, Wait, Waits, Stamp, Views;
    parked := false;
    var check := Store(producers, log, at, batch, s);
    match check.decision {
      case Append => error, baseOffset := ErrNone, check.cachedOffset;
      case Duplicate => error, baseOffset := ErrNone, check.cachedOffset;
      case OutOfOrder => error, baseOffset := ErrOutOfOrderSequenceNumber, -1;
    }
    if check.decision == Producer.Append && acks == -1 && state != null {
      WaitIs(state.View(), |log.contents|, now);
      var reached := state.BeginWait(baseOffset + 1, now);
      parked := !reached;
    }
  }

  // ----- the same as steps of a replicated partition -----

  function ProduceSteps(c: Replication.Cluster, batch: Bytes, now: int): seq<Replication.Op> {
    [Replication.Produce(batch), Replication.Await(|Replication.LeaderLog(c)| + 1, now)]
  }

  /** The log has grown by the stamped batch, the state has waited for its end, and a wait
      that was over at once is an acknowledgement. */
  ghost predicate ProducedAndAwaited(c: Replication.Cluster, d: Replication.Cluster, batch: Bytes, now: int)
    requires |batch| >= HeaderSize
  {
    var log := Replication.LeaderLog(c);
    && Replication.LeaderLog(d) == log + [Stamp(batch, |log|)]
    && d.state == Wait(c.state, |log| + 1, now)
    && (d.state.offsets.high >= |log| + 1 ==> Replication.Ack(|log| + 1, d.state.offsets, now) in d.acks)
  }

  /** A produce with acks -1 is the epoch's produce and wait. */
  lemma ProduceIsAwaited(c: Replication.Cluster, batch: Bytes, now: int)
    requires |batch| >= HeaderSize
    ensures Replication.Legal(c, ProduceSteps(c, batch, now)) && Replication.OnTime(c, ProduceSteps(c, batch, now))
    ensures ProducedAndAwaited(c, Replication.Run(c, ProduceSteps(c, batch, now)), batch, now)
  {
    hide Replication.Enabled, Replication.Step, Wait;
    var n := |Replication.LeaderLog(c)|;
    var a, b := Replication.Produce(batch), Replication.Await(n + 1, now);
    Durability.Takes(c, batch);
    Appends(c, batch);
    AwaitsEnd(Replication.Step(c, a), n + 1, now);
    Durability.TwoSteps(c, a, b);
    Replication.NothingDelivered(c, [a, b]);
  }

  lemma Appends(c: Replication.Cluster, batch: Bytes)
    requires |batch| >= HeaderSize && Replication.Enabled(c, Replication.Produce(batch))
    ensures var log, d := Replication.LeaderLog(c), Replication.Step(c, Replication.Produce(batch));
            Replication.LeaderLog(d) == log + [Stamp(batch, |log|)] && d.state == c.state
  {}

  lemma AwaitsEnd(c: Replication.Cluster, end: int, now: int)
    requires 0 < end <= |Replication.LeaderLog(c)|
    ensures Replication.Enabled(c, Replication.Await(end, now))
    ensures var d := Replication.Step(c, Replication.Await(end, now));
            && Replication.LeaderLog(d) == Replication.LeaderLog(c) && d.state == Wait(c.state, end, now)
            && (d.state.offsets.high >= end ==> Replication.Ack(end, d.state.offsets, now) in d.acks)
  {
    hide WatermarkOver, Filter;
    var d := Replication.Step(c, Replication.Await(end, now));
    if d.state.offsets.high >= end { assert d.acks[|d.acks| - 1] == Replication.Ack(end, d.state.offsets, now); }
  }

  /** An acks=all answer that did not park, given while the registry ISR was seen
      within the lag timeout: the batch is at its offset in the log of every later leader. */
  lemma AnsweredSurvives(c: Replication.Cluster, p: Topics.Partition, batch: Bytes, s: State, now: int,
                         es: seq<Durability.Event>)
    requires Durability.EpochOf(c, p) && |batch| >= HeaderSize
    requires Waits(c.state, s, |Replication.LeaderLog(c)| + 1, now, false)
    requires Durability.SeenInTime(Replication.Ack(|Replication.LeaderLog(c)| + 1, s.offsets, now), p)
    ensures Replication.Legal(c, ProduceSteps(c, batch, now))
    ensures var n, logs := |Replication.LeaderLog(c)|, Replication.Run(c, ProduceSteps(c, batch, now)).logs;
            Durability.LeaderHas(Durability.After(Durability.World(logs, p), es), n, Stamp(batch, n))
  {
    hide Replication.Run, Replication.Legal, Replication.OnTime, Replication.Safe, Wait, Topics.WellShaped,
         Durability.SeenInTime, ProduceSteps;
    var n := |Replication.LeaderLog(c)|;
    ProduceIsAwaited(c, batch, now);
    NotParked(c.state, n + 1, now);
    Durability.AckedForever(c, p, ProduceSteps(c, batch, now), Replication.Ack(n + 1, s.offsets, now), n, es);
  }

  lemma NotParked(s: State, end: int, now: int)
    requires Waits(s, Wait(s, end, now), end, now, false)
    ensures Wait(s, end, now).offsets.high >= end
  {
    hide WatermarkOver, Filter;
    var o := s.offsets.(leaderEnd := if end > s.offsets.leaderEnd then end else s.offsets.leaderEnd);
    RecomputedIs(o, now);
    assert forall b :: Bounds(Recomputed(o, now), b, now) <==> Bounds(o, b, now);
    assert forall b :: OffsetOf(Recomputed(o, now), b) == OffsetOf(o, b);
  }

  /** A follower's fetch is the epoch's record, watermark and answer. */
  lemma FetchIsRecorded(c: Replication.Cluster, r: int, count: nat, seen: int, recordedAt: int, readAt: int)
    requires r in c.inFlight && c.inFlight[r].follower >= 0
    requires c.inFlight[r].from + count <= |Replication.LeaderLog(c)|
    ensures var log, f, from := Replication.LeaderLog(c), c.inFlight[r].follower, c.inFlight[r].from;
            var noted := Replication.Step(c, Replication.Record(r, |log|, seen, recordedAt));
            var read := Replication.Step(noted, Replication.HighWatermark(|log|, readAt));
            && Replication.Enabled(read, Replication.Answer(r, count))
            && var d := Replication.Step(read, Replication.Answer(r, count));
               && d.state == Run(c.state, FetchSteps(f, from, |log|, seen, recordedAt, readAt))
               && d.logs == c.logs
               && d.inFlight[r] == Replication.Answered(f, from, Join(log[from..from + count]))
  {
    hide WatermarkOver, Filter, Run, Join, FollowerNoted, IsWatermark;
    var fetch, end := c.inFlight[r], |Replication.LeaderLog(c)|;
    FetchRuns(c.state, fetch.follower, fetch.from, end, seen, recordedAt, readAt);
  }

  /** A resend that is answered before the follower has fetched: the first produce
      is parked, its client gives up and sends again, and the answer is success
      although broker 2 is in sync and has nothing. */
  lemma ResendAnsweredEarly(crc: Bytes -> nat)
    ensures var batch, ops := Producer.RawBatch(7, 0, 1, crc), Producer.Produces([(0, 1)], crc);
            && Producer.Produce(Producer.Run(ops), Producer.Here, batch).1 == Producer.Check(Producer.Duplicate, 0)
            && Producer.LogOf(Producer.Run(ops), Producer.Here) == [Stamp(batch, 0)]
            && ParkedUnfetched(batch)
  {
    hide Producer.Produce, Producer.RawBatch, Producer.Run, Stamp;
    var batch, ops := Producer.RawBatch(7, 0, 1, crc), Producer.Produces([(0, 1)], crc);
    Producer.OneStored(1, crc);
    assert ops[..1] == ops;
    Producer.TakenForDuplicate(Producer.Run(ops), Producer.After(0, 1, 0), 0, 1, crc);
    Replication.ParksUnfetched(batch);
  }

  /** In the epoch of brokers 1 and 2 that produces this batch and waits: no acknowledgement, and broker 2 is in
      sync without the batch. */
  ghost predicate ParkedUnfetched(batch: Bytes)
    requires |batch| >= HeaderSize
  {
    var c, ops := Replication.Begin([1, 2], 1, 10, 0), [Replication.Produce(batch), Replication.Await(1, 0)];
    Replication.Legal(c, ops) && Replication.Unfetched(Replication.Run(c, ops), batch)
  }
}
