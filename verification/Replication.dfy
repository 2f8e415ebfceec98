/**
 One partition in one leader epoch: the leader, its followers' logs, the
 fetches in flight, and the produce calls that the watermark answers.
 */
module Replication {
  import opened Wire
  import opened RecordBatch
  import opened Watermark

  type Batches = seq<Bytes>

  /** A fetch in flight: asked from an offset, then answered with bytes. */
  datatype Fetch = Asked(follower: int, from: nat) | Answered(follower: int, from: nat, bytes: Bytes)

  /** A produce call that was told that every offset below `target` is replicated,
      and what the leader saw at that instant. */
  datatype Ack = Ack(target: int, seen: Offsets, now: int)

  /** Fetches are named by the request they belong to: a cancelled fetcher's last
      request may still be under way when its successor asks. */
  datatype Cluster = Cluster(logs: map<int, Batches>, state: State, inFlight: map<int, Fetch>, acks: seq<Ack>)

  function LeaderOf(c: Cluster): int { c.state.offsets.leader }

  function LogAt(c: Cluster, b: int): Batches { if b in c.logs then c.logs[b] else [] }

  function LeaderLog(c: Cluster): Batches { LogAt(c, LeaderOf(c)) }

  /** What isr() lists at that instant. */
  function ISR(o: Offsets, now: int): set<int> {
    {o.leader} + set b | b in o.replicas && Bounds(o, b, now)
  }

  function AcksFor(closed: seq<Closing>, seen: Offsets, now: int): seq<Ack> {
    seq(|closed|, i requires 0 <= i < |closed| => Ack(closed[i].waiter.target, seen, now))
  }

  /** The state moves on; every waiter it closes is an acknowledgement. */
  function Moved(c: Cluster, s: State, now: int): Cluster
    requires |c.state.closings| <= |s.closings|
  {
    c.(state := s, acks := c.acks + AcksFor(s.closings[|c.state.closings|..], s.offsets, now))
  }

  datatype Op =
    | Produce(batch: Bytes)                            // append, stamped with its offset
    | Ask(request: int, follower: int)                 // a follower reads its own log end
    | Record(request: int, end: nat, seen: int, now: int)  // the leader notes the fetch, having read its log end
    | HighWatermark(end: nat, now: int)
    | Answer(request: int, count: nat)                 // the leader reads and joins some batches
    | Deliver(request: int, count: nat)                // the follower appends what it splits, or stops early
    | Lose(request: int)
    | Await(target: int, now: int)                     // waitForAllAcks of the batch below target
    | Expire(id: nat)
    | AskForISR(now: int)

  /** What each step finds when it is taken: requests come from replicas that follow, ends were read from the log. */
  predicate Enabled(c: Cluster, op: Op) {
    match op
    case Produce(batch) => |batch| >= HeaderSize
    case Ask(r, f) => f in c.logs && f != LeaderOf(c) && r !in c.inFlight
    case Record(r, end, _, _) => r in c.inFlight && end <= |LeaderLog(c)|
    case HighWatermark(end, _) => end <= |LeaderLog(c)|
    case Answer(r, count) => r in c.inFlight && c.inFlight[r].from + count <= |LeaderLog(c)|
    case Deliver(r, _) => r in c.inFlight && c.inFlight[r].Answered?
    case Lose(r) => r in c.inFlight
    case Await(target, _) => 0 < target <= |LeaderLog(c)|
    case Expire(_) => true
    case AskForISR(_) => true
  }

  /** n batches from there on exist and have a true length field. */
  predicate TrueFrom(log: Batches, from: nat, n: nat) {
    from + n <= |log| && forall i :: from <= i < from + n ==> Honest(log[i])
  }

  /** What a delivery appends. */
  function Brought(fetch: Fetch, count: nat): Batches
    requires fetch.Answered?
  {
    First(Split(fetch.bytes), count)
  }

  /** An answer that brings nothing, or is applied at the log end it was asked from
      and brings batches whose length fields are true. */
  predicate Timely(c: Cluster, op: Op)
    requires Enabled(c, op)
  {
    op.Deliver? ==>
      var fetch := c.inFlight[op.request];
      var brought := Brought(fetch, op.count);
      || brought == []
      || (fetch.from == |LogAt(c, fetch.follower)| && TrueFrom(LeaderLog(c), fetch.from, |brought|))
  }

  function First(bs: Batches, n: nat): Batches { if n <= |bs| then bs[..n] else bs }

  lemma Closed(s: State, now: int)
    ensures |s.closings| <= |Refresh(s, now).closings|
    ensures Refresh(s, now).closings[..|s.closings|] == s.closings
  {
    hide WatermarkOver, Filter;
  }

  function Step(c: Cluster, op: Op): Cluster
    requires Enabled(c, op)
  {
    match op
    case Produce(batch) => c.(logs := c.logs[LeaderOf(c) := LeaderLog(c) + [Stamp(batch, |LeaderLog(c)|)]])
    case Ask(r, f) => c.(inFlight := c.inFlight[r := Asked(f, |c.logs[f]|)])
    case Record(r, end, seen, now) =>
      var o, f, from := c.state.offsets, c.inFlight[r].follower, c.inFlight[r].from;
      Closed(c.state.(offsets := o.(followerOffset := o.followerOffset[f := from],
                                    followerSeen := o.followerSeen[f := seen], leaderEnd := end)), now);
      Moved(c, RecordFetch(c.state, f, from, end, seen, now), now)
    case HighWatermark(end, now) =>
      Closed(c.state.(offsets := c.state.offsets.(leaderEnd := end)), now);
      Moved(c, SetLeaderEnd(c.state, end, now), now)
    case Answer(r, count) =>
      var f, from := c.inFlight[r].follower, c.inFlight[r].from;
      c.(inFlight := c.inFlight[r := Answered(f, from, Join(LeaderLog(c)[from..from + count]))])
    case Deliver(r, count) =>
      var f := c.inFlight[r].follower;
      c.(logs := c.logs[f := LogAt(c, f) + Brought(c.inFlight[r], count)], inFlight := c.inFlight - {r})
    case Lose(r) => c.(inFlight := c.inFlight - {r})
    case Await(target, now) =>
      var end := if target > c.state.offsets.leaderEnd then target else c.state.offsets.leaderEnd;
      Closed(c.state.(offsets := c.state.offsets.(leaderEnd := end)), now);
      var moved := Moved(c, Wait(c.state, target, now), now);
      if moved.state.offsets.high >= target then moved.(acks := moved.acks + [Ack(target, moved.state.offsets, now)])
      else moved
    case Expire(id) => c.(state := TimeOut(c.state, id))
    case AskForISR(now) => c.(state := Watermark.AskISR(c.state, now))
  }

  // ----- the invariant -----

  /** Follower logs are prefixes of the leader's. */
  ghost predicate Prefixes(c: Cluster) {
    && LeaderOf(c) in c.logs
    && (forall b :: b in c.logs ==> c.logs[b] <= LeaderLog(c))
    && Stamped(LeaderLog(c))
  }

  /** Each batch starts with its own offset. */
  ghost predicate Stamped(log: Batches) {
    forall i :: 0 <= i < |log| ==> StampedAt(log[i], i)
  }

  ghost predicate StampedAt(batch: Bytes, offset: int) { |batch| >= 8 && batch[..8] == U64(offset % TwoTo64) }

  ghost predicate Answers(fetch: Fetch, log: Batches) {
    fetch.Answered? ==> exists to :: fetch.from <= to <= |log| && fetch.bytes == Join(log[fetch.from..to])
  }

  /** A follower has what it asked after, and answers come from the leader's log. */
  ghost predicate Matches(fetch: Fetch, c: Cluster) {
    && fetch.follower in c.logs && fetch.follower != LeaderOf(c)
    && fetch.from <= |c.logs[fetch.follower]| && Answers(fetch, LeaderLog(c))
  }

  ghost predicate FlightsMatch(c: Cluster) {
    forall r :: r in c.inFlight ==> Matches(c.inFlight[r], c)
  }

  /** What the leader believes is really there. */
  ghost predicate Believed(c: Cluster) {
    && c.state.offsets.leaderEnd <= |LeaderLog(c)|
    && (forall b :: b in c.state.offsets.replicas && b != LeaderOf(c) ==>
          b in c.logs && OffsetOf(c.state.offsets, b) <= |c.logs[b]|)
  }

  /** Every replica that bounded the watermark holds everything below the target. */
  ghost predicate Kept(a: Ack, logs: map<int, Batches>) {
    forall b :: b in ISR(a.seen, a.now) ==> b in logs && a.target <= |logs[b]|
  }

  /** The leader tracks the replicas that it tracked from the start. */
  ghost predicate Tracks(o: Offsets, p: Offsets) {
    o.replicas == p.replicas && o.leader == p.leader && o.lagTimeout == p.lagTimeout
  }

  ghost predicate AllTrack(acks: seq<Ack>, o: Offsets) {
    forall i :: 0 <= i < |acks| ==> Tracks(acks[i].seen, o)
  }

  ghost predicate AllKept(acks: seq<Ack>, logs: map<int, Batches>) {
    forall i :: 0 <= i < |acks| ==> Kept(acks[i], logs)
  }

  ghost predicate Safe(c: Cluster) {
    Prefixes(c) && FlightsMatch(c) && Believed(c) && AllKept(c.acks, c.logs) && AllTrack(c.acks, c.state.offsets)
  }

  // ----- logs only grow -----

  ghost predicate Grown(logs: map<int, Batches>, logs': map<int, Batches>) {
    forall b :: b in logs ==> b in logs' && logs[b] <= logs'[b]
  }

  lemma GrownKeeps(acks: seq<Ack>, logs: map<int, Batches>, logs': map<int, Batches>)
    requires AllKept(acks, logs) && Grown(logs, logs')
    ensures AllKept(acks, logs')
  {
    forall i | 0 <= i < |acks| ensures Kept(acks[i], logs') { assert Kept(acks[i], logs); }
  }

  // ----- acknowledgements -----

  /** A watermark is held by everyone who bounds it. */
  lemma WatermarkIsHeld(c: Cluster, o: Offsets, now: int, target: int)
    requires Prefixes(c) && Believed(c.(state := c.state.(offsets := o))) && o.leader == LeaderOf(c)
    requires target <= Recomputed(o, now).high
    ensures Kept(Ack(target, Recomputed(o, now), now), c.logs)
  {
    hide WatermarkOver;
    RecomputedIs(o, now);
    var isr := ISR(Recomputed(o, now), now);
    forall b | b in isr ensures b in c.logs && target <= |c.logs[b]| {
      if b != o.leader { assert Bounds(o, b, now); }
    }
  }

  lemma RefreshAcks(c: Cluster, s: State, now: int)
    requires Safe(c) && s.closings == c.state.closings && Tracks(s.offsets, c.state.offsets)
    requires Believed(c.(state := s))
    ensures |c.state.closings| <= |Refresh(s, now).closings|
    ensures Safe(Moved(c, Refresh(s, now), now))
  {
    hide WatermarkOver, Join;
    Closed(s, now);
    var s' := Refresh(s, now);
    var m := Moved(c, s', now);
    var closed := s'.closings[|c.state.closings|..];
    assert s'.offsets == Recomputed(s.offsets, now);
    forall i | 0 <= i < |m.acks| ensures Kept(m.acks[i], m.logs) {
      if i < |c.acks| {
        assert m.acks[i] == c.acks[i];
      } else {
        var k := i - |c.acks|;
        ClosedIsReached(s, now, |c.state.closings| + k);
        assert m.acks[i] == Ack(closed[k].waiter.target, s'.offsets, now);
        WatermarkIsHeld(c, s.offsets, now, closed[k].waiter.target);
      }
    }
    forall i | 0 <= i < |m.acks| ensures Tracks(m.acks[i].seen, m.state.offsets) {
      if i < |c.acks| { assert m.acks[i] == c.acks[i]; }
    }
  }

  lemma ClosedIsReached(s: State, now: int, i: nat)
    requires |s.closings| <= i < |Refresh(s, now).closings|
    ensures Refresh(s, now).closings[i].waiter.target <= Recomputed(s.offsets, now).high
  {
    hide WatermarkOver, Filter;
    var high := Recomputed(s.offsets, now).high;
    FilterKeeps(Reached(high), s.waiters);
    var due := Filter(Reached(high), s.waiters);
    assert due[i - |s.closings|] in due;
  }

  // ----- every step -----

  lemma ProduceSafe(c: Cluster, batch: Bytes)
    requires Safe(c) && Enabled(c, Produce(batch))
    ensures Safe(Step(c, Produce(batch))) && Grown(c.logs, Step(c, Produce(batch)).logs)
  {
    hide Join, Stamp, StampedAt;
    var log, c' := LeaderLog(c), Step(c, Produce(batch));
    StampIsAt(batch, |log|);
    forall r | r in c'.inFlight ensures Answers(c'.inFlight[r], LeaderLog(c')) {
      assert Matches(c.inFlight[r], c);
      AnswersGrow(c.inFlight[r], log, LeaderLog(c'));
    }
    GrownKeeps(c.acks, c.logs, c'.logs);
  }

  lemma AnswersGrow(fetch: Fetch, log: Batches, log': Batches)
    requires Answers(fetch, log) && log <= log'
    ensures Answers(fetch, log')
  {
    hide Join;
    if fetch.Answered? {
      var to :| fetch.from <= to <= |log| && fetch.bytes == Join(log[fetch.from..to]);
      assert log'[fetch.from..to] == log[fetch.from..to];
    }
  }

  lemma StampIsAt(batch: Bytes, offset: int)
    requires |batch| >= 8
    ensures StampedAt(Stamp(batch, offset), offset)
  {
    hide U64;
  }

  lemma StampIsHonest(batch: Bytes, offset: int)
    requires Honest(batch)
    ensures Honest(Stamp(batch, offset))
  {
    StampKeeps(batch, offset);
  }

  lemma {:induction false} SplitsBack(bs: Batches)
    requires forall x :: x in bs ==> Honest(x)
    ensures Split(Join(bs)) == bs
  {
    SplitHonest(bs, []);
    assert Join(bs) + [] == Join(bs);
  }

  /** Of what was read, the first batches come back if their length fields are true. */
  lemma TrueComesBack(bs: Batches, k: nat)
    requires k <= |bs| && forall i :: 0 <= i < k ==> Honest(bs[i])
    ensures |Split(Join(bs))| >= k && Split(Join(bs))[..k] == bs[..k]
  {
    hide Honest, Join, Split;
    JoinSplits(bs, k);
    forall x | x in bs[..k] ensures Honest(x) {}
    SplitHonestThen(bs[..k], Join(bs[k..]));
  }

  /** A delivery brings the leader's own batches exactly when their length fields are true. */
  lemma BringsIff(log: Batches, from: nat, all: nat, count: nat)
    requires from <= all <= |log|
    ensures var x := First(Split(Join(log[from..all])), count); x <= log[from..] <==> TrueFrom(log, from, |x|)
  {
    hide Honest, Join, Split;
    var bs := log[from..all];
    var pieces := Split(Join(bs));
    var x := First(pieces, count);
    SplitIsHonest(Join(bs));
    if x <= log[from..] {
      forall i | from <= i < from + |x| ensures Honest(log[i]) {
        assert log[i] == log[from..][i - from] == x[i - from] && x[i - from] in pieces;
      }
    }
    if TrueFrom(log, from, |x|) {
      var k := if |x| <= |bs| then |x| else |bs|;
      TrueComesBack(bs, k);
      if k < |x| {
        forall b | b in bs ensures Honest(b) {}
        SplitsBack(bs);
      }
      assert x == pieces[..|x|];
    }
  }

  /** The first batch that a delivery brings carries the stamp of where it was asked. */
  lemma FirstIsStamped(log: Batches, from: nat, all: nat)
    requires from <= all <= |log| && Stamped(log) && Split(Join(log[from..all])) != []
    ensures StampedAt(Split(Join(log[from..all]))[0], from)
  {
    hide U64, GetBigEndian;
    var bs := log[from..all];
    var bytes := Join(bs);
    assert bs != [];
    assert bytes == bs[0] + Join(bs[1..]) && bs[0] == log[from];
    assert Split(bytes)[0] == bytes[..TotalLength(bytes)];
    assert bytes[..TotalLength(bytes)][..8] == bs[0][..8];
  }

  /** A delivery keeps the cluster safe exactly when it is timely: a stale answer
      puts batches where the leader has others, and a batch with a false length
      field arrives in pieces. */
  lemma DeliverSafeIff(c: Cluster, r: int, count: nat)
    requires Safe(c) && Enabled(c, Deliver(r, count)) && |LeaderLog(c)| < TwoTo63
    ensures Safe(Step(c, Deliver(r, count))) <==> Timely(c, Deliver(r, count))
    ensures Timely(c, Deliver(r, count)) ==> Grown(c.logs, Step(c, Deliver(r, count)).logs)
  {
    hide Join, Split, Stamped, TrueFrom, FlightsMatch, Believed, AllKept, AllTrack;
    if Timely(c, Deliver(r, count)) { DeliverSafe(c, r, count); }
    else if Safe(Step(c, Deliver(r, count))) { DeliverWasTimely(c, r, count); }
  }

  lemma DeliverWasTimely(c: Cluster, r: int, count: nat)
    requires Safe(c) && Enabled(c, Deliver(r, count)) && |LeaderLog(c)| < TwoTo63
    requires Prefixes(Step(c, Deliver(r, count)))
    ensures Timely(c, Deliver(r, count))
  {
    hide Join, Split, Stamped, TrueFrom, AllKept, AllTrack, Believed;
    var log, f, from := LeaderLog(c), c.inFlight[r].follower, c.inFlight[r].from;
    var c', x := Step(c, Deliver(r, count)), Brought(c.inFlight[r], count);
    assert Matches(c.inFlight[r], c);
    var all :| from <= all <= |log| && c.inFlight[r].bytes == Join(log[from..all]);
    assert LeaderLog(c') == log && c'.logs[f] == c.logs[f] + x <= log;
    if x != [] { HeldIsTimely(log, c.logs[f], from, all, count); }
  }

  /** An answer that extends a prefix of the log was asked from the prefix's end. */
  lemma HeldIsTimely(log: Batches, held: Batches, from: nat, all: nat, count: nat)
    requires Stamped(log) && |log| < TwoTo63 && from <= all <= |log|
    requires var x := First(Split(Join(log[from..all])), count); x != [] && held + x <= log
    ensures from == |held| && TrueFrom(log, from, |First(Split(Join(log[from..all])), count)|)
  {
    hide Join, Split, StampedAt, TrueFrom;
    var x := First(Split(Join(log[from..all])), count);
    assert (held + x)[|held|] == x[0] == log[|held|];
    FirstIsStamped(log, from, all);
    StampsApart(x[0], from, |held|);
    assert x <= log[from..] by { assert forall i :: 0 <= i < |x| ==> (held + x)[|held| + i] == x[i]; }
    BringsIff(log, from, all, count);
  }

  lemma DeliverSafe(c: Cluster, r: int, count: nat)
    requires Safe(c) && Enabled(c, Deliver(r, count)) && Timely(c, Deliver(r, count))
    ensures Safe(Step(c, Deliver(r, count))) && Grown(c.logs, Step(c, Deliver(r, count)).logs)
  {
    hide Join, Split, Stamped, Answers, Kept, TrueFrom;
    var log, f, from, c' := LeaderLog(c), c.inFlight[r].follower, c.inFlight[r].from, Step(c, Deliver(r, count));
    var x := Brought(c.inFlight[r], count);
    assert Matches(c.inFlight[r], c);
    var held := |c.logs[f]|;
    assert c.logs[f] == log[..held];
    if x != [] {
      DeliverBrings(c, r, count);
      assert c'.logs[f] == log[..from + |x|];
    } else {
      assert c'.logs[f] == c.logs[f];
    }
    forall q | q in c'.inFlight ensures Matches(c'.inFlight[q], c') { assert Matches(c.inFlight[q], c); }
    GrownKeeps(c.acks, c.logs, c'.logs);
  }

  lemma DeliverBrings(c: Cluster, r: int, count: nat)
    requires Safe(c) && Enabled(c, Deliver(r, count))
    requires TrueFrom(LeaderLog(c), c.inFlight[r].from, |Brought(c.inFlight[r], count)|)
    ensures var log, from, x := LeaderLog(c), c.inFlight[r].from, Brought(c.inFlight[r], count);
            from + |x| <= |log| && x == log[from..from + |x|]
  {
    hide Join, Split, Stamped;
    var log, from := LeaderLog(c), c.inFlight[r].from;
    assert Matches(c.inFlight[r], c);
    var all :| from <= all <= |log| && c.inFlight[r].bytes == Join(log[from..all]);
    BringsIff(log, from, all, count);
  }

  lemma RecordSafe(c: Cluster, r: int, end: nat, seen: int, now: int)
    requires Safe(c) && Enabled(c, Record(r, end, seen, now))
    ensures Safe(Step(c, Record(r, end, seen, now)))
  {
    hide Refresh, Answers, AllKept, AllTrack, Stamped;
    var o, f, from := c.state.offsets, c.inFlight[r].follower, c.inFlight[r].from;
    var s := c.state.(offsets := o.(followerOffset := o.followerOffset[f := from],
                                    followerSeen := o.followerSeen[f := seen], leaderEnd := end));
    assert Matches(c.inFlight[r], c);
    RefreshAcks(c, s, now);
  }

  lemma AwaitSafe(c: Cluster, target: int, now: int)
    requires Safe(c) && Enabled(c, Await(target, now))
    ensures Safe(Step(c, Await(target, now)))
  {
    hide Answers, WatermarkOver, Filter, Closings, Kept, ISR, Stamped;
    var end := if target > c.state.offsets.leaderEnd then target else c.state.offsets.leaderEnd;
    var s := c.state.(offsets := c.state.offsets.(leaderEnd := end));
    RefreshAcks(c, s, now);
    var m, c' := Moved(c, Refresh(s, now), now), Step(c, Await(target, now));
    assert c'.state.offsets == m.state.offsets == Recomputed(s.offsets, now);
    var ack := Ack(target, Recomputed(s.offsets, now), now);
    if Recomputed(s.offsets, now).high >= target {
      WatermarkIsHeld(c, s.offsets, now, target);
      assert c'.acks == m.acks + [ack];
    } else {
      assert c'.acks == m.acks;
    }
    SameOtherwise(m, c');
  }

  /** Safety does not look at the waiters. */
  lemma SameOtherwise(m: Cluster, c: Cluster)
    requires Safe(m) && c.logs == m.logs && c.inFlight == m.inFlight && c.state.offsets == m.state.offsets
    requires AllKept(c.acks, c.logs) && AllTrack(c.acks, c.state.offsets)
    ensures Safe(c)
  {
    hide Answers, Stamped, AllKept, AllTrack;
    forall r | r in c.inFlight ensures Matches(c.inFlight[r], c) { assert Matches(m.inFlight[r], m); }
  }

  /** Every step keeps the cluster safe and only appends to logs, as long as
      answers are applied in time. */
  lemma StepSafe(c: Cluster, op: Op)
    requires Safe(c) && Enabled(c, op) && Timely(c, op)
    ensures Safe(Step(c, op)) && Grown(c.logs, Step(c, op).logs) && LeaderOf(Step(c, op)) == LeaderOf(c)
    ensures |Step(c, op).acks| >= |c.acks| && Step(c, op).acks[..|c.acks|] == c.acks
  {
    hide Refresh, Kept, Join, Split, WatermarkOver, Filter, ISR, Stamp, Stamped, Tracks, Safe;
    LeaderStays(c, op);
    match op
    case Produce(batch) => ProduceSafe(c, batch);
    case Record(r, end, seen, now) => RecordSafe(c, r, end, seen, now);
    case HighWatermark(end, now) => EndSafe(c, end, now);
    case Deliver(r, count) => DeliverSafe(c, r, count);
    case Await(target, now) => AwaitSafe(c, target, now);
    case _ => SmallStepSafe(c, op);
  }

  lemma EndSafe(c: Cluster, end: nat, now: int)
    requires Safe(c) && Enabled(c, HighWatermark(end, now))
    ensures Safe(Step(c, HighWatermark(end, now)))
  {
    hide Refresh, Answers, AllKept, AllTrack, Stamped;
    RefreshAcks(c, c.state.(offsets := c.state.offsets.(leaderEnd := end)), now);
  }

  lemma SmallStepSafe(c: Cluster, op: Op)
    requires Safe(c) && Enabled(c, op) && (op.Ask? || op.Answer? || op.Lose? || op.Expire? || op.AskForISR?)
    ensures Safe(Step(c, op))
  {
    hide Kept, Join, WatermarkOver, Filter, Stamped;
    var c' := Step(c, op);
    forall r | r in c'.inFlight ensures Matches(c'.inFlight[r], c') {
      if r in c.inFlight { assert Matches(c.inFlight[r], c); }
      if op.Answer? && op.request == r {
        var from := c.inFlight[r].from;
        assert from <= from + op.count <= |LeaderLog(c)|;
      }
    }
  }

  lemma LeaderStays(c: Cluster, op: Op)
    requires Enabled(c, op)
    ensures LeaderOf(Step(c, op)) == LeaderOf(c)
    ensures Tracks(Step(c, op).state.offsets, c.state.offsets)
    ensures |Step(c, op).acks| >= |c.acks| && Step(c, op).acks[..|c.acks|] == c.acks
  {
    hide WatermarkOver, Filter, ISR;
  }

  ghost predicate Legal(c: Cluster, ops: seq<Op>)
    decreases |ops|, 0
  {
    ops == [] || (Legal(c, ops[..|ops| - 1]) && Enabled(Run(c, ops[..|ops| - 1]), ops[|ops| - 1]))
  }

  ghost function Run(c: Cluster, ops: seq<Op>): Cluster
    requires Legal(c, ops)
    decreases |ops|, 1
  {
    if ops == [] then c else Step(Run(c, ops[..|ops| - 1]), ops[|ops| - 1])
  }

  /** Every answer of the run is applied in time. */
  ghost predicate OnTime(c: Cluster, ops: seq<Op>)
    requires Legal(c, ops)
    decreases |ops|
  {
    ops == [] || (OnTime(c, ops[..|ops| - 1]) && Timely(Run(c, ops[..|ops| - 1]), ops[|ops| - 1]))
  }

  /** The first epoch: every replica of the partition starts with an empty log. */
  function Begin(replicas: seq<int>, leader: int, lagTimeout: int, now: int): Cluster {
    Cluster(map b | b in [leader] + replicas :: [], Start(replicas, leader, lagTimeout, now), map[], [])
  }

  /** Every interleaving of produces, fetches, waits and clock readings in which
      answers are applied in time stays safe, only appends, and forgets no acknowledgement. */
  lemma {:induction false} RunSafe(c: Cluster, ops: seq<Op>)
    requires Safe(c) && Legal(c, ops) && OnTime(c, ops)
    ensures Safe(Run(c, ops)) && Grown(c.logs, Run(c, ops).logs)
    ensures Tracks(Run(c, ops).state.offsets, c.state.offsets)
    ensures |c.acks| <= |Run(c, ops).acks| && Run(c, ops).acks[..|c.acks|] == c.acks
  {
    hide Step, Enabled, Timely, Safe, Grown;
    if ops == [] { GrowsFrom(c.logs, c.logs, c.logs); }
    else {
      var n := |ops| - 1;
      var before := Run(c, ops[..n]);
      RunSafe(c, ops[..n]);
      StepSafe(before, ops[n]);
      LeaderStays(before, ops[n]);
      GrowsFrom(c.logs, before.logs, Run(c, ops).logs);
    }
  }

  lemma GrowsFrom(a: map<int, Batches>, b: map<int, Batches>, c: map<int, Batches>)
    ensures Grown(a, a)
    ensures Grown(a, b) && Grown(b, c) ==> Grown(a, c)
  {}

  ghost predicate SafeThroughout(c: Cluster, ops: seq<Op>)
    requires Legal(c, ops)
    decreases |ops|
  {
    Safe(Run(c, ops)) && (ops == [] || SafeThroughout(c, ops[..|ops| - 1]))
  }

  /** Over every run from a safe moment: safe at each moment if and only if every
      answer is applied in time. */
  lemma {:induction false} SafeIff(c: Cluster, ops: seq<Op>)
    requires Safe(c) && Legal(c, ops) && |LeaderLog(c)| + |ops| < TwoTo63
    ensures SafeThroughout(c, ops) <==> OnTime(c, ops)
  {
    hide Step, Enabled, Timely, Safe;
    if ops != [] {
      var n := |ops| - 1;
      SafeIff(c, ops[..n]);
      if OnTime(c, ops[..n]) {
        RunSafe(c, ops[..n]);
        LogBound(c, ops[..n]);
        StepSafeIff(Run(c, ops[..n]), ops[n]);
      }
    }
  }

  lemma StepSafeIff(c: Cluster, op: Op)
    requires Safe(c) && Enabled(c, op) && |LeaderLog(c)| < TwoTo63
    ensures Safe(Step(c, op)) <==> Timely(c, op)
  {
    hide Step, Enabled, Safe;
    if op.Deliver? { DeliverSafeIff(c, op.request, op.count); } else { StepSafe(c, op); }
  }

  /** The leader's log grows by at most one batch per step. */
  lemma {:induction false} LogBound(c: Cluster, ops: seq<Op>)
    requires Safe(c) && Legal(c, ops) && OnTime(c, ops)
    ensures |LeaderLog(Run(c, ops))| <= |LeaderLog(c)| + |ops|
  {
    hide Step, Enabled, Timely, Safe, LeaderLog;
    if ops != [] {
      var n := |ops| - 1;
      LogBound(c, ops[..n]);
      RunSafe(c, ops[..n]);
      LeaderGrows(Run(c, ops[..n]), ops[n]);
    }
  }

  lemma LeaderGrows(c: Cluster, op: Op)
    requires Safe(c) && Enabled(c, op)
    ensures |LeaderLog(Step(c, op))| <= |LeaderLog(c)| + 1
  {
    hide WatermarkOver, Filter, ISR, Split, Join;
    LeaderStays(c, op);
    if op.Deliver? { assert Matches(c.inFlight[op.request], c); }
  }

  // ----- a new epoch -----

  /** Another broker leads: the logs of those who are left are kept, the leader's
      state starts anew, and nothing is under way. */
  function Succeed(c: Cluster, alive: set<int>, replicas: seq<int>, leader: int, lagTimeout: int, now: int): Cluster {
    Cluster(map b | b in c.logs && b in alive :: c.logs[b], Start(replicas, leader, lagTimeout, now), map[], [])
  }

  ghost predicate NoneLonger(c: Cluster, alive: set<int>, leader: int) {
    forall b :: b in c.logs && b in alive ==> |c.logs[b]| <= |LogAt(c, leader)|
  }

  /** The new epoch opens safe if and only if nobody who is left has a longer log
      than the new leader. */
  lemma SucceedSafeIff(c: Cluster, alive: set<int>, replicas: seq<int>, leader: int, lagTimeout: int, now: int)
    requires Safe(c) && leader in alive && leader in c.logs
    requires forall b :: b in replicas ==> b in alive && b in c.logs
    ensures Safe(Succeed(c, alive, replicas, leader, lagTimeout, now)) <==> NoneLonger(c, alive, leader)
  {
    hide WatermarkOver, Prefixes, FlightsMatch, Believed, AllKept, AllTrack, NoneLonger;
    var d := Succeed(c, alive, replicas, leader, lagTimeout, now);
    FreshState(d, replicas, leader, lagTimeout, now);
    KeptPrefixes(c, d, alive, leader);
  }

  lemma KeptPrefixes(c: Cluster, d: Cluster, alive: set<int>, leader: int)
    requires Prefixes(c) && leader in alive && leader in c.logs && LeaderOf(d) == leader
    requires d.logs == map b | b in c.logs && b in alive :: c.logs[b]
    ensures Prefixes(d) <==> NoneLonger(c, alive, leader)
  {
    hide StampedAt;
    var log := LeaderLog(c);
    assert LeaderLog(d) == c.logs[leader] <= log;
    forall b | b in d.logs ensures d.logs[b] <= LeaderLog(d) <==> |c.logs[b]| <= |c.logs[leader]| {
      assert c.logs[b] <= log;
    }
    forall b | b in c.logs && b in alive ensures b in d.logs {}
  }

  /** A state that starts believes nothing that could be wrong. */
  lemma FreshState(c: Cluster, replicas: seq<int>, leader: int, lagTimeout: int, now: int)
    requires c.state == Start(replicas, leader, lagTimeout, now) && c.inFlight == map[] && c.acks == []
    requires forall b :: b in replicas ==> b in c.logs
    ensures LeaderOf(c) == leader && Believed(c) && FlightsMatch(c)
    ensures AllKept(c.acks, c.logs) && AllTrack(c.acks, c.state.offsets)
  {
    hide WatermarkOver;
  }

  // ----- what an answer without a wait means -----

  /** The leader cannot tell the two apart. */
  ghost predicate Alike(c: Cluster, d: Cluster) {
    Safe(d) && d.state == c.state && LeaderLog(d) == LeaderLog(c)
  }

  /** The ISR holds everything below the target in every cluster like this one. */
  ghost predicate KnownHeld(c: Cluster, target: int, now: int) {
    forall d :: Alike(c, d) ==> Kept(Ack(target, c.state.offsets, now), d.logs)
  }

  /** Every follower that is in sync has asked from the target or beyond. */
  ghost predicate AskedBeyond(o: Offsets, target: int, now: int) {
    forall b :: Bounds(o, b, now) ==> target <= OffsetOf(o, b)
  }

  /** A duplicate is answered without a wait.  That the ISR holds the batch can be
      told from what the leader knows if and only if every in-sync follower has
      asked from beyond it. */
  lemma KnownHeldIff(c: Cluster, target: int, now: int)
    requires Safe(c) && 0 < target <= |LeaderLog(c)|
    ensures KnownHeld(c, target, now) <==> AskedBeyond(c.state.offsets, target, now)
  {
    hide FlightsMatch, AllKept, AllTrack, Stamped;
    var o := c.state.offsets;
    if AskedBeyond(o, target, now) {
      forall d | Alike(c, d) ensures Kept(Ack(target, o, now), d.logs) {}
    } else {
      var b :| Bounds(o, b, now) && OffsetOf(o, b) < target;
      AtLeast(c);
      assert b in ISR(o, now);
      assert !Kept(Ack(target, o, now), Least(c).logs);
    }
  }

  /** How much of the leader's log the follower is known to have. */
  function KnownEnd(c: Cluster, b: int): nat {
    var offset := OffsetOf(c.state.offsets, b);
    if offset < 0 then 0 else if offset > |LeaderLog(c)| then |LeaderLog(c)| else offset
  }

  /** The same to the leader, with followers that have no more than it knows of. */
  function Least(c: Cluster): Cluster {
    var o := c.state.offsets;
    c.(logs := map b | b in c.logs ::
         if b in o.replicas && b != o.leader then LeaderLog(c)[..KnownEnd(c, b)] else c.logs[b],
       inFlight := map[], acks := [])
  }

  lemma AtLeast(c: Cluster)
    requires Safe(c)
    ensures Alike(c, Least(c))
  {
    hide StampedAt, AllKept, AllTrack;
    var d := Least(c);
    assert LeaderLog(d) == LeaderLog(c);
    NothingMore(d);
  }

  lemma NothingMore(c: Cluster)
    requires c.inFlight == map[] && c.acks == []
    ensures FlightsMatch(c) && AllKept(c.acks, c.logs) && AllTrack(c.acks, c.state.offsets)
  {}

  // ----- one fetch at a time, of honest batches, is always in time -----

  /** A follower asks only when none of its requests is under way, and batches have a true length field. */
  ghost predicate Orderly(c: Cluster, op: Op) {
    && (op.Ask? ==> forall r :: r in c.inFlight ==> c.inFlight[r].follower != op.follower)
    && (op.Produce? ==> Honest(op.batch))
  }

  ghost predicate Current(c: Cluster) {
    && (forall r :: r in c.inFlight ==> c.inFlight[r].from == |LogAt(c, c.inFlight[r].follower)|)
    && (forall r, q :: r in c.inFlight && q in c.inFlight && r != q ==>
          c.inFlight[r].follower != c.inFlight[q].follower)
    && (forall x :: x in LeaderLog(c) ==> Honest(x))
  }

  lemma OrderlyIsTimely(c: Cluster, op: Op)
    requires Safe(c) && Current(c) && Enabled(c, op)
    ensures Timely(c, op)
  {
    hide Join, Split, Honest, Stamped;
    if op.Deliver? {
      var fetch, log := c.inFlight[op.request], LeaderLog(c);
      assert Matches(fetch, c);
      var all :| fetch.from <= all <= |log| && fetch.bytes == Join(log[fetch.from..all]);
      forall x | x in log[fetch.from..all] ensures Honest(x) { assert x in log; }
      SplitsBack(log[fetch.from..all]);
    }
  }

  lemma StepCurrent(c: Cluster, op: Op)
    requires Safe(c) && Current(c) && Enabled(c, op) && Orderly(c, op)
    ensures Current(Step(c, op))
  {
    hide Step, Safe, Current;
    if op.Produce? { ProduceCurrent(c, op.batch); }
    else if op.Deliver? { DeliverCurrent(c, op.request, op.count); }
    else if op.Ask? || op.Answer? || op.Lose? { FlightsCurrent(c, op); }
    else { OnlyStateMoves(c, op); SameCurrent(c, Step(c, op)); }
  }

  lemma ProduceCurrent(c: Cluster, batch: Bytes)
    requires Safe(c) && Current(c) && Enabled(c, Produce(batch)) && Honest(batch)
    ensures Current(Step(c, Produce(batch)))
  {
    hide Split, Join, Honest, Stamp, Stamped, Answers, Believed, AllKept, AllTrack;
    StampIsHonest(batch, |LeaderLog(c)|);
    assert forall r :: r in c.inFlight ==> Matches(c.inFlight[r], c);
  }

  lemma FlightsCurrent(c: Cluster, op: Op)
    requires Current(c) && Enabled(c, op) && Orderly(c, op) && (op.Ask? || op.Answer? || op.Lose?)
    ensures Current(Step(c, op))
  {
    hide Join, Honest;
  }

  lemma OnlyStateMoves(c: Cluster, op: Op)
    requires Enabled(c, op) && !op.Produce? && !op.Ask? && !op.Answer? && !op.Deliver? && !op.Lose?
    ensures Step(c, op).logs == c.logs && Step(c, op).inFlight == c.inFlight
    ensures LeaderOf(Step(c, op)) == LeaderOf(c)
  {
    hide WatermarkOver, Filter, ISR;
  }

  lemma SameCurrent(c: Cluster, c': Cluster)
    requires Current(c) && c'.logs == c.logs && c'.inFlight == c.inFlight && LeaderOf(c') == LeaderOf(c)
    ensures Current(c')
  {
    hide Honest;
  }

  lemma DeliverCurrent(c: Cluster, r: int, count: nat)
    requires Safe(c) && Current(c) && Enabled(c, Deliver(r, count))
    ensures Current(Step(c, Deliver(r, count)))
  {
    hide Split, Join, Honest, Stamped, Brought, Answers;
    assert Matches(c.inFlight[r], c);
  }

  ghost predicate AllOrderly(c: Cluster, ops: seq<Op>)
    requires Legal(c, ops)
    decreases |ops|
  {
    ops == [] || (AllOrderly(c, ops[..|ops| - 1]) && Orderly(Run(c, ops[..|ops| - 1]), ops[|ops| - 1]))
  }

  /** Followers with one fetcher each, and honest batches: every answer is applied in time. */
  lemma {:induction false} OrderlyIsOnTime(c: Cluster, ops: seq<Op>)
    requires Safe(c) && Current(c) && Legal(c, ops) && AllOrderly(c, ops)
    ensures OnTime(c, ops) && Safe(Run(c, ops)) && Current(Run(c, ops))
  {
    hide Step, Enabled, Timely, Current, Orderly, Safe;
    if ops != [] {
      var n := |ops| - 1;
      OrderlyIsOnTime(c, ops[..n]);
      OrderlyIsTimely(Run(c, ops[..n]), ops[n]);
      StepSafe(Run(c, ops[..n]), ops[n]);
      StepCurrent(Run(c, ops[..n]), ops[n]);
    }
  }

  lemma BeginSafe(replicas: seq<int>, leader: int, lagTimeout: int, now: int)
    ensures Safe(Begin(replicas, leader, lagTimeout, now)) && Current(Begin(replicas, leader, lagTimeout, now))
    ensures LeaderOf(Begin(replicas, leader, lagTimeout, now)) == leader
  {
    hide WatermarkOver;
  }

  /** What an acknowledgement means: each replica that was in sync at that
      instant has the leader's very batch at the acknowledged offset. */
  lemma AckMeans(c: Cluster, a: Ack, b: int, offset: nat)
    requires Safe(c) && a in c.acks && b in ISR(a.seen, a.now) && offset < a.target
    ensures offset < |LogAt(c, b)| && offset < |LeaderLog(c)| && LogAt(c, b)[offset] == LeaderLog(c)[offset]
  {
    assert Kept(a, c.logs);
  }

  // ----- why an answer must be applied in time -----

  /** A fetcher is replaced while its request is under way: both requests read the
      same batch, and the follower would store it twice. */
  function Replaced(f: int): seq<Op> {
    [Ask(1, f), Ask(2, f), Answer(1, 1), Answer(2, 1)] + [Deliver(1, 1)] + [Deliver(2, 1)]
  }

  function BothAnswered(c: Cluster, f: int): Cluster
    requires f in c.logs && |c.logs[f]| < |LeaderLog(c)|
  {
    var from := |c.logs[f]|;
    var fetch := Answered(f, from, Join(LeaderLog(c)[from..from + 1]));
    c.(inFlight := map[1 := fetch, 2 := fetch])
  }

  lemma RunStep(c: Cluster, ops: seq<Op>, op: Op)
    requires Legal(c, ops) && Enabled(Run(c, ops), op)
    ensures Legal(c, ops + [op]) && Run(c, ops + [op]) == Step(Run(c, ops), op)
  {
    hide Enabled, Step;
    assert (ops + [op])[..|ops|] == ops;
  }

  lemma AskedTwice(c: Cluster, f: int)
    requires c.inFlight == map[] && f in c.logs && f != LeaderOf(c) && |c.logs[f]| < |LeaderLog(c)|
    ensures var ops := [Ask(1, f), Ask(2, f), Answer(1, 1), Answer(2, 1)];
            Legal(c, ops) && Run(c, ops) == BothAnswered(c, f)
  {
    hide Join, Legal, Run;
    var from := |c.logs[f]|;
    var fetch := Answered(f, from, Join(LeaderLog(c)[from..from + 1]));
    assert Legal(c, []) && Run(c, []) == c by { NoSteps(c); }
    RunStep(c, [], Ask(1, f));
    var ops := [] + [Ask(1, f)];
    assert Run(c, ops) == c.(inFlight := map[1 := Asked(f, from)]);
    RunStep(c, ops, Ask(2, f));
    ops := ops + [Ask(2, f)];
    assert Run(c, ops) == c.(inFlight := map[1 := Asked(f, from), 2 := Asked(f, from)]);
    RunStep(c, ops, Answer(1, 1));
    ops := ops + [Answer(1, 1)];
    assert Run(c, ops) == c.(inFlight := map[1 := fetch, 2 := Asked(f, from)]);
    RunStep(c, ops, Answer(2, 1));
    ops := ops + [Answer(2, 1)];
    assert Run(c, ops) == c.(inFlight := map[1 := fetch, 2 := fetch]);
    assert ops == [Ask(1, f), Ask(2, f), Answer(1, 1), Answer(2, 1)];
  }

  lemma NoSteps(c: Cluster)
    ensures Legal(c, []) && Run(c, []) == c
  {}

  lemma {:induction false} NothingDelivered(c: Cluster, ops: seq<Op>)
    requires Legal(c, ops) && forall i :: 0 <= i < |ops| ==> !ops[i].Deliver?
    ensures OnTime(c, ops)
  {
    hide Enabled, Step;
    if ops != [] { NothingDelivered(c, ops[..|ops| - 1]); }
  }

  /** From any safe moment at which the follower is behind. */
  lemma ReplacedFetcherBreaks(c: Cluster, f: int)
    requires Safe(c) && c.inFlight == map[] && f in c.logs && f != LeaderOf(c)
    requires |c.logs[f]| < |LeaderLog(c)| < TwoTo63 && Honest(LeaderLog(c)[|c.logs[f]|])
    ensures Legal(c, Replaced(f)) && !Safe(Run(c, Replaced(f)))
  {
    hide Join, Split, Honest, Safe, Legal, Run;
    var ops := [Ask(1, f), Ask(2, f), Answer(1, 1), Answer(2, 1)];
    var answered := BothAnswered(c, f);
    AskedTwice(c, f);
    TwoAnswers(c, f);
    OneBatch(answered, 1);
    DeliverSafeIff(answered, 1, 1);
    RunStep(c, ops, Deliver(1, 1));
    var once := Step(answered, Deliver(1, 1));
    OneBatch(once, 2);
    DeliverSafeIff(once, 2, 1);
    RunStep(c, ops + [Deliver(1, 1)], Deliver(2, 1));
  }

  /** Such a moment: one batch is produced, and broker 2 has not fetched it. */
  lemma ReplacedFetcherHappens(batch: Bytes)
    requires |batch| >= HeaderSize && Honest(batch)
    ensures var c := Begin([1, 2], 1, 10, 0);
            && Legal(c, [Produce(batch)]) && Safe(Run(c, [Produce(batch)]))
            && Legal(Run(c, [Produce(batch)]), Replaced(2)) && !Safe(Run(Run(c, [Produce(batch)]), Replaced(2)))
  {
    hide Honest, Stamp, Safe, Legal, Run, Replaced, Begin;
    ProducesFirst(batch);
    StampIsHonest(batch, 0);
    ReplacedFetcherBreaks(Run(Begin([1, 2], 1, 10, 0), [Produce(batch)]), 2);
  }

  lemma TwoAnswers(c: Cluster, f: int)
    requires Safe(c) && f in c.logs && f != LeaderOf(c) && |c.logs[f]| < |LeaderLog(c)|
    ensures Safe(BothAnswered(c, f))
  {
    hide Join, Stamped, AllKept, AllTrack;
  }

  /** An answer of one honest batch brings it. */
  lemma OneBatch(c: Cluster, r: int)
    requires Enabled(c, Deliver(r, 1))
    requires c.inFlight[r].from < |LeaderLog(c)| && Honest(LeaderLog(c)[c.inFlight[r].from])
    requires c.inFlight[r].bytes == Join(LeaderLog(c)[c.inFlight[r].from..c.inFlight[r].from + 1])
    ensures Brought(c.inFlight[r], 1) == [LeaderLog(c)[c.inFlight[r].from]]
    ensures TrueFrom(LeaderLog(c), c.inFlight[r].from, 1)
  {
    hide Honest, Join, Split;
    var log, from := LeaderLog(c), c.inFlight[r].from;
    var one := log[from..from + 1];
    assert one == [log[from]];
    SplitsBack(one);
  }

  /** A batch whose length field is too small arrives in pieces. */
  lemma LyingLengthBreaks(batch: Bytes)
    requires |batch| >= HeaderSize && TotalLength(batch) < |batch|
    ensures var c, ops := Begin([1, 2], 1, 10, 0), [Produce(batch), Ask(1, 2), Answer(1, 1)] + [Deliver(1, 1)];
            Legal(c, ops) && !Safe(Run(c, ops))
  {
    hide Join, Safe, Legal, Run, Stamp, Split, Begin, TotalLength;
    var c, ops := Begin([1, 2], 1, 10, 0), [Produce(batch), Ask(1, 2), Answer(1, 1)];
    LyingAnswer(batch);
    RunStep(c, ops, Deliver(1, 1));
    LyingSplit(batch);
    DeliverLies(Run(c, ops), 1);
  }

  ghost predicate OneAnswered(c: Cluster, batch: Bytes)
    requires |batch| >= HeaderSize
  {
    && LeaderLog(c) == [Stamp(batch, 0)]
    && 1 in c.inFlight && c.inFlight[1] == Answered(2, 0, Join([Stamp(batch, 0)]))
  }

  /** One batch is produced, and nobody has asked for it. */
  ghost predicate OneProduced(c: Cluster, batch: Bytes)
    requires |batch| >= HeaderSize
  {
    && LeaderLog(c) == [Stamp(batch, 0)] && LeaderOf(c) == 1
    && 2 in c.logs && c.logs[2] == [] && c.inFlight == map[]
  }

  lemma ProducesFirst(batch: Bytes)
    requires |batch| >= HeaderSize
    ensures var c := Begin([1, 2], 1, 10, 0);
            && Legal(c, [Produce(batch)]) && Safe(Run(c, [Produce(batch)]))
            && OneProduced(Run(c, [Produce(batch)]), batch)
  {
    hide Safe, Legal, Run, Stamp, WatermarkOver;
    var c := Begin([1, 2], 1, 10, 0);
    assert Legal(c, []) && Run(c, []) == c by { NoSteps(c); }
    RunStep(c, [], Produce(batch));
    assert [] + [Produce(batch)] == [Produce(batch)];
    BeginSafe([1, 2], 1, 10, 0);
    ProduceSafe(c, batch);
  }

  /** The leader of one batch that nobody has fetched loses the lead to broker 2 and
      follows it: its log goes on with what broker 2 does not have. */
  lemma OldLeaderReturns(batch: Bytes)
    requires |batch| >= HeaderSize
    ensures var c := Begin([1, 2], 1, 10, 0);
            && Legal(c, [Produce(batch)]) && Safe(Run(c, [Produce(batch)]))
            && !Safe(Succeed(Run(c, [Produce(batch)]), {1, 2}, [2], 2, 10, 20))
  {
    hide Safe, Legal, Run, Stamp, Begin;
    ProducesFirst(batch);
    var c := Run(Begin([1, 2], 1, 10, 0), [Produce(batch)]);
    assert 1 in c.logs by { LeaderHasLog(c); }
    assert |c.logs[1]| > |LogAt(c, 2)|;
    SucceedSafeIff(c, {1, 2}, [2], 2, 10, 20);
  }

  lemma LeaderHasLog(c: Cluster)
    requires Safe(c)
    ensures LeaderOf(c) in c.logs
  {}

  /** The batch is the leader's, nobody was told so, and broker 2 is in sync without it. */
  ghost predicate Unfetched(c: Cluster, batch: Bytes)
    requires |batch| >= HeaderSize
  {
    LeaderLog(c) == [Stamp(batch, 0)] && c.acks == [] && 2 in ISR(c.state.offsets, 0) && LogAt(c, 2) == []
  }

  const TwoAtZero := Offsets([1, 2], 1, map[2 := 0], map[2 := 0], 0, 0, 10)

  lemma BeginsAtZero()
    ensures Begin([1, 2], 1, 10, 0).state == State(TwoAtZero, [], [], 0)
  {
    var followers := set b | b in [1, 2] && b != 1;
    assert followers == {2};
    var o := Offsets([1, 2], 1, map b | b in followers :: 0, map b | b in followers :: 0, 0, 0, 10);
    assert o == TwoAtZero;
    TwoReplicas(o, 0);
  }

  /** With broker 2 in sync at offset 0, a wait for offset 1 parks. */
  lemma ParksAtZero(c: Cluster)
    requires c.state == State(TwoAtZero, [], [], 0) && 1 <= |LeaderLog(c)|
    ensures Enabled(c, Await(1, 0))
    ensures Step(c, Await(1, 0)).acks == c.acks && Step(c, Await(1, 0)).logs == c.logs
    ensures LeaderOf(Step(c, Await(1, 0))) == 1 && 2 in ISR(Step(c, Await(1, 0)).state.offsets, 0)
  {
    hide WatermarkOver, Filter;
    var o := TwoAtZero.(leaderEnd := 1);
    TwoReplicas(o, 0);
    assert Recomputed(o, 0) == o;
    assert Bounds(o, 2, 0);
  }

  lemma ParksUnfetched(batch: Bytes)
    requires |batch| >= HeaderSize
    ensures var c, ops := Begin([1, 2], 1, 10, 0), [Produce(batch), Await(1, 0)];
            Legal(c, ops) && Unfetched(Run(c, ops), batch)
  {
    hide Legal, Run, Stamp, WatermarkOver, Filter, ISR;
    var c := Begin([1, 2], 1, 10, 0);
    BeginsAtZero();
    assert Legal(c, []) && Run(c, []) == c by { NoSteps(c); }
    RunStep(c, [], Produce(batch));
    assert [] + [Produce(batch)] == [Produce(batch)];
    ParksAtZero(Run(c, [Produce(batch)]));
    RunStep(c, [Produce(batch)], Await(1, 0));
    assert [Produce(batch)] + [Await(1, 0)] == [Produce(batch), Await(1, 0)];
  }

  lemma AsksFirst(c: Cluster, batch: Bytes)
    requires |batch| >= HeaderSize && Safe(c) && OneProduced(c, batch)
    ensures Enabled(c, Ask(1, 2)) && Enabled(Step(c, Ask(1, 2)), Answer(1, 1))
    ensures var d := Step(Step(c, Ask(1, 2)), Answer(1, 1)); Safe(d) && OneAnswered(d, batch)
  {
    hide Safe, Stamp, Join;
    var asked := Step(c, Ask(1, 2));
    SmallStepSafe(c, Ask(1, 2));
    assert asked == c.(inFlight := map[1 := Asked(2, 0)]);
    SmallStepSafe(asked, Answer(1, 1));
    assert [Stamp(batch, 0)][0..1] == [Stamp(batch, 0)];
  }

  lemma LyingAnswer(batch: Bytes)
    requires |batch| >= HeaderSize
    ensures var c, ops := Begin([1, 2], 1, 10, 0), [Produce(batch), Ask(1, 2), Answer(1, 1)];
            Legal(c, ops) && Safe(Run(c, ops)) && OneAnswered(Run(c, ops), batch)
  {
    hide Safe, Legal, Run, Begin, OneProduced, OneAnswered, Enabled, Step;
    var c, ops := Begin([1, 2], 1, 10, 0), [Produce(batch)];
    ProducesFirst(batch);
    AsksFirst(Run(c, ops), batch);
    RunStep(c, ops, Ask(1, 2));
    RunStep(c, ops + [Ask(1, 2)], Answer(1, 1));
    assert ops + [Ask(1, 2)] + [Answer(1, 1)] == [Produce(batch), Ask(1, 2), Answer(1, 1)];
  }

  lemma DeliverLies(c: Cluster, r: int)
    requires Safe(c) && Enabled(c, Deliver(r, 1)) && c.inFlight[r].from < |LeaderLog(c)| < TwoTo63
    requires !Honest(LeaderLog(c)[c.inFlight[r].from]) && |Brought(c.inFlight[r], 1)| == 1
    ensures !Safe(Step(c, Deliver(r, 1)))
  {
    hide Safe, Honest, Split, Step;
    DeliverSafeIff(c, r, 1);
  }

  lemma LyingSplit(batch: Bytes)
    requires |batch| >= HeaderSize && TotalLength(batch) < |batch|
    ensures !Honest(Stamp(batch, 0)) && |First(Split(Join([Stamp(batch, 0)])), 1)| == 1
  {
    hide GetBigEndian, U64;
    var b := Stamp(batch, 0);
    StampKeeps(batch, 0);
    assert b[8..12] == batch[8..12];
    var one: Batches := [b];
    assert one[1..] == [] && Join(one) == b + Join(one[1..]) == b;
  }

  lemma StampsApart(batch: Bytes, i: nat, j: nat)
    requires StampedAt(batch, i) && StampedAt(batch, j) && i < TwoTo64 && j < TwoTo64
    ensures i == j
  {
    hide U64, GetBigEndian;
    U64RoundTrip(i);
    U64RoundTrip(j);
  }
}
