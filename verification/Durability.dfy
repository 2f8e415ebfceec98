/** Acknowledged batches across failovers. */
module Durability {
  import opened Wire
  import opened Topics
  import opened RecordBatch
  import opened Watermark
  import opened Replication

  /** All later epochs: the partition's metadata and every broker's log. */
  datatype World = World(logs: map<int, Batches>, partition: Partition)

  /** Logs are append-only, whoever leads; OnPeerDown moves the leadership. */
  datatype Event = Append(broker: int, batch: Bytes) | PeerDown(dead: int, alive: set<int>)

  function Next(w: World, e: Event): World {
    match e
    case Append(b, batch) => w.(logs := w.logs[b := (if b in w.logs then w.logs[b] else []) + [batch]])
    case PeerDown(dead, alive) => w.(partition := FailOver(w.partition, dead, alive))
  }

  function After(w: World, es: seq<Event>): World {
    if es == [] then w else Next(After(w, es[..|es| - 1]), es[|es| - 1])
  }

  predicate Has(logs: map<int, Batches>, b: int, offset: nat, batch: Bytes) {
    b in logs && offset < |logs[b]| && logs[b][offset] == batch
  }

  /** Everyone who may ever lead has it. */
  predicate HeldByISR(w: World, offset: nat, batch: Bytes) {
    forall b :: b in w.partition.isr ==> Has(w.logs, b, offset, batch)
  }

  lemma {:induction false} StaysHeld(w: World, es: seq<Event>, offset: nat, batch: Bytes)
    requires WellShaped(w.partition) && HeldByISR(w, offset, batch)
    ensures WellShaped(After(w, es).partition) && HeldByISR(After(w, es), offset, batch)
  {
    hide WellShaped, FailOver;
    if es != [] {
      var before, e := After(w, es[..|es| - 1]), es[|es| - 1];
      StaysHeld(w, es[..|es| - 1], offset, batch);
      if e.PeerDown? { FailOverShaped(before.partition, e.dead, e.alive); }
    }
  }

  predicate LeaderHas(w: World, offset: nat, batch: Bytes) { Has(w.logs, w.partition.leader, offset, batch) }

  /** A batch survives every history of failovers exactly when the whole registry ISR has it. */
  lemma DurableIff(w: World, offset: nat, batch: Bytes)
    requires WellShaped(w.partition)
    ensures HeldByISR(w, offset, batch) <==> forall es :: LeaderHas(After(w, es), offset, batch)
  {
    if HeldByISR(w, offset, batch) {
      forall es ensures LeaderHas(After(w, es), offset, batch) { StaysHeld(w, es, offset, batch); }
    } else {
      var b :| b in w.partition.isr && !Has(w.logs, b, offset, batch);
      var es := if b == w.partition.leader then [] else [PeerDown(w.partition.leader, {b})];
      if b != w.partition.leader { Elects(w, b); }
      assert !LeaderHas(After(w, es), offset, batch);
    }
  }

  /** If only b of the ISR is left, b leads. */
  lemma Elects(w: World, b: int)
    requires WellShaped(w.partition) && b in w.partition.isr && b != w.partition.leader
    ensures After(w, [PeerDown(w.partition.leader, {b})]) ==
            w.(partition := FailOver(w.partition, w.partition.leader, {b}))
    ensures FailOver(w.partition, w.partition.leader, {b}).leader == b
  {
    var e := PeerDown(w.partition.leader, {b});
    assert [e][..0] == [];
    assert After(w, [e]) == Next(After(w, []), e);
    FailOverShaped(w.partition, e.dead, e.alive);
  }

  /** Every follower of the registry ISR was seen within the lag timeout at the instant of the acknowledgement. */
  ghost predicate SeenInTime(a: Ack, p: Partition) {
    forall b :: b in p.isr && b != p.leader ==>
      b in a.seen.followerSeen && a.now - a.seen.followerSeen[b] <= a.seen.lagTimeout
  }

  lemma AckIsHeld(c: Cluster, p: Partition, a: Ack, offset: nat)
    requires EpochOf(c, p) && a in c.acks && offset < a.target && SeenInTime(a, p)
    ensures offset < |LeaderLog(c)| && HeldByISR(World(c.logs, p), offset, LeaderLog(c)[offset])
  {
    assert Tracks(a.seen, c.state.offsets);
    hide Safe, WellShaped;
    assert p.leader in p.isr by { ShapedLeads(p); }
    AckMeans(c, a, p.leader, offset);
    forall b | b in p.isr ensures Has(c.logs, b, offset, LeaderLog(c)[offset]) { AckMeans(c, a, b, offset); }
  }

  /** acks=all while every registry-ISR replica was within the lag timeout: each
      acknowledged batch is at its offset in the log of every later leader. */
  lemma AckSurvives(c: Cluster, a: Ack, p: Partition, offset: nat, es: seq<Event>)
    requires EpochOf(c, p) && a in c.acks && offset < a.target && SeenInTime(a, p)
    ensures offset < |LeaderLog(c)| && LeaderHas(After(World(c.logs, p), es), offset, LeaderLog(c)[offset])
  {
    hide Safe, WellShaped, SeenInTime;
    AckIsHeld(c, p, a, offset);
    StaysHeld(World(c.logs, p), es, offset, LeaderLog(c)[offset]);
    ShapedLeads(After(World(c.logs, p), es).partition);
  }

  /** The cluster is an epoch of the partition: its leader leads and tracks the registry ISR. */
  ghost predicate EpochOf(c: Cluster, p: Partition) {
    Safe(c) && WellShaped(p) && LeaderOf(c) == p.leader && c.state.offsets.replicas == p.isr
  }

  /** The same over any run of any epoch, and any later failovers. */
  lemma AckedForever(c: Cluster, p: Partition, ops: seq<Replication.Op>, a: Ack, offset: nat, es: seq<Event>)
    requires EpochOf(c, p) && Legal(c, ops) && OnTime(c, ops)
    requires a in Replication.Run(c, ops).acks && offset < a.target && SeenInTime(a, p)
    ensures var d := Replication.Run(c, ops);
            offset < |LeaderLog(d)| && LeaderHas(After(World(d.logs, p), es), offset, LeaderLog(d)[offset])
  {
    hide Safe, WellShaped, SeenInTime;
    RunSafe(c, ops);
    AckSurvives(Replication.Run(c, ops), a, p, offset, es);
  }

  // ----- epoch after epoch -----

  /** The leader dies, `alive` are left, the controller fails over, and the new epoch runs. */
  datatype Reign = Reign(alive: set<int>, lagTimeout: int, now: int, ops: seq<Replication.Op>)

  function Heir(p: Partition, r: Reign): Partition { FailOver(p, p.leader, r.alive) }

  function Opening(c: Cluster, p: Partition, r: Reign): Cluster {
    Succeed(c, r.alive, Heir(p, r).isr, Heir(p, r).leader, r.lagTimeout, r.now)
  }

  /** Somebody of the ISR is left to lead, and the run is one of the new epoch. */
  ghost predicate Reigns(c: Cluster, p: Partition, r: Reign) {
    Heir(p, r).leader != p.leader && Legal(Opening(c, p, r), r.ops)
  }

  /** Nobody who is left has more than the new leader, and answers are applied in time. */
  ghost predicate Sound(c: Cluster, p: Partition, r: Reign)
    requires Reigns(c, p, r)
  {
    NoneLonger(c, r.alive, Heir(p, r).leader) && OnTime(Opening(c, p, r), r.ops)
  }

  ghost predicate AllReign(c: Cluster, p: Partition, rs: seq<Reign>)
    decreases |rs|
  {
    rs == [] ||
    (Reigns(c, p, rs[0]) && Sound(c, p, rs[0]) &&
     AllReign(Replication.Run(Opening(c, p, rs[0]), rs[0].ops), Heir(p, rs[0]), rs[1..]))
  }

  /** The cluster and the partition after these reigns. */
  ghost function Later(c: Cluster, p: Partition, rs: seq<Reign>): (Cluster, Partition)
    requires AllReign(c, p, rs)
    decreases |rs|
  {
    if rs == [] then (c, p)
    else Later(Replication.Run(Opening(c, p, rs[0]), rs[0].ops), Heir(p, rs[0]), rs[1..])
  }

  lemma HeirIs(p: Partition, r: Reign)
    requires WellShaped(p) && Heir(p, r).leader != p.leader
    ensures WellShaped(Heir(p, r))
    ensures forall b :: b in Heir(p, r).isr ==> b in p.isr && b in r.alive
  {
    hide FailOver, WellShaped;
    FailOverShaped(p, p.leader, r.alive);
  }

  lemma IsrHasLogs(c: Cluster, p: Partition)
    requires EpochOf(c, p)
    ensures forall b :: b in p.isr ==> b in c.logs
  {
    hide WellShaped, Stamped;
  }

  /** A sound reign is an epoch of its partition, and everyone of its ISR keeps what they had. */
  lemma ReignIsEpoch(c: Cluster, p: Partition, r: Reign)
    requires EpochOf(c, p) && Reigns(c, p, r) && Sound(c, p, r)
    ensures EpochOf(Replication.Run(Opening(c, p, r), r.ops), Heir(p, r))
    ensures forall b :: b in Heir(p, r).isr ==>
              b in c.logs && b in Replication.Run(Opening(c, p, r), r.ops).logs &&
              c.logs[b] <= Replication.Run(Opening(c, p, r), r.ops).logs[b]
  {
    hide Safe, WellShaped, FailOver, WatermarkOver;
    HeirIs(p, r);
    IsrHasLogs(c, p);
    var q, o := Heir(p, r), Opening(c, p, r);
    ShapedLeads(q);
    SucceedSafeIff(c, r.alive, q.isr, q.leader, r.lagTimeout, r.now);
    RunSafe(o, r.ops);
  }

  lemma {:induction false} LaterHeld(c: Cluster, p: Partition, rs: seq<Reign>, offset: nat, batch: Bytes)
    requires EpochOf(c, p) && AllReign(c, p, rs) && HeldByISR(World(c.logs, p), offset, batch)
    ensures var (d, q) := Later(c, p, rs); EpochOf(d, q) && HeldByISR(World(d.logs, q), offset, batch)
    decreases |rs|
  {
    hide EpochOf, Heir, Opening;
    if rs != [] {
      ReignIsEpoch(c, p, rs[0]);
      HeirIsr(c, p, rs[0]);
      LaterHeld(Replication.Run(Opening(c, p, rs[0]), rs[0].ops), Heir(p, rs[0]), rs[1..], offset, batch);
    }
  }

  lemma HeirIsr(c: Cluster, p: Partition, r: Reign)
    requires EpochOf(c, p) && Reigns(c, p, r)
    ensures forall b :: b in Heir(p, r).isr ==> b in p.isr
  {
    hide Safe, WellShaped, Heir;
    HeirIs(p, r);
  }

  /** A batch acknowledged in any epoch, while that epoch's ISR was within the lag
      timeout, is at its offset in the log of the leader of every later epoch. */
  lemma AckedThroughReigns(c: Cluster, p: Partition, earlier: seq<Reign>, a: Ack, offset: nat, later: seq<Reign>)
    requires EpochOf(c, p) && AllReign(c, p, earlier)
    requires var (d, q) := Later(c, p, earlier);
             a in d.acks && offset < a.target && SeenInTime(a, q) && AllReign(d, q, later)
    ensures var (d, q) := Later(c, p, earlier);
            var last := Later(d, q, later).0;
            offset < |LeaderLog(d)| && offset < |LeaderLog(last)| && LeaderLog(last)[offset] == LeaderLog(d)[offset]
  {
    hide Safe, WellShaped, SeenInTime, Heir, Opening, Sound;
    LaterIsEpoch(c, p, earlier);
    var (d, q) := Later(c, p, earlier);
    AckIsHeld(d, q, a, offset);
    LaterHeld(d, q, later, offset, LeaderLog(d)[offset]);
    ShapedLeads(Later(d, q, later).1);
  }

  lemma {:induction false} LaterIsEpoch(c: Cluster, p: Partition, rs: seq<Reign>)
    requires EpochOf(c, p) && AllReign(c, p, rs)
    ensures EpochOf(Later(c, p, rs).0, Later(c, p, rs).1)
    decreases |rs|
  {
    hide EpochOf, Heir, Opening;
    if rs != [] {
      ReignIsEpoch(c, p, rs[0]);
      LaterIsEpoch(Replication.Run(Opening(c, p, rs[0]), rs[0].ops), Heir(p, rs[0]), rs[1..]);
    }
  }

  /** The first epoch, from empty logs, is one. */
  lemma FirstEpoch(p: Partition, lagTimeout: int, now: int)
    requires WellShaped(p)
    ensures EpochOf(Begin(p.isr, p.leader, lagTimeout, now), p)
  {
    hide WatermarkOver, Safe, WellShaped;
    BeginSafe(p.isr, p.leader, lagTimeout, now);
  }

  lemma ShapedLeads(p: Partition)
    requires WellShaped(p)
    ensures p.leader in p.isr
  {}

  lemma TwoSteps(c: Cluster, a: Replication.Op, b: Replication.Op)
    requires Enabled(c, a) && Enabled(Replication.Step(c, a), b)
    ensures Legal(c, [a, b]) && Replication.Run(c, [a, b]) == Replication.Step(Replication.Step(c, a), b)
  {
    hide Enabled, Replication.Step;
    assert [a, b][..1] == [a] && [a][..0] == [];
    assert Legal(c, []) && Replication.Run(c, []) == c;
    assert Legal(c, [a]) && Replication.Run(c, [a]) == Replication.Step(c, a);
  }

  const BothInISR := Partition(0, 1, [1, 2], [1, 2])

  /** The only acknowledgement was given when nobody but broker 1 was in sync. */
  ghost predicate AckedAlone(c: Cluster) {
    |c.acks| == 1 && c.acks[0].target == 1 && ISR(c.acks[0].seen, c.acks[0].now) == {1}
  }

  /** An acknowledged batch that the next leader does not have. */
  ghost predicate LostWhenOneDies(c: Cluster) {
    && AckedAlone(c) && |LeaderLog(c)| == 1
    && !LeaderHas(After(World(c.logs, BothInISR), [PeerDown(1, {2})]), 0, LeaderLog(c)[0])
  }

  /** Broker 2 has not fetched for 20 ticks; broker 1 acknowledges alone and dies. */
  lemma LaggardLoses(batch: Bytes)
    requires |batch| >= HeaderSize
    ensures var ops := [Produce(batch), Await(1, 20)];
            Legal(Begin([1, 2], 1, 10, 0), ops) && LostWhenOneDies(Replication.Run(Begin([1, 2], 1, 10, 0), ops))
  {
    hide Stamp, Replication.Step, Enabled;
    var c0 := Begin([1, 2], 1, 10, 0);
    assert Enabled(c0, Produce(batch)) by { Takes(c0, batch); }
    var c1 := Replication.Step(c0, Produce(batch));
    Acknowledges(c1, batch);
    TwoSteps(c0, Produce(batch), Await(1, 20));
    var c2 := Replication.Step(c1, Await(1, 20));
    Elects(World(c2.logs, BothInISR), 2);
  }

  lemma Takes(c: Cluster, batch: Bytes)
    requires |batch| >= HeaderSize
    ensures Enabled(c, Produce(batch))
  {}

  lemma Acknowledges(c1: Cluster, batch: Bytes)
    requires |batch| >= HeaderSize && c1 == Replication.Step(Begin([1, 2], 1, 10, 0), Produce(batch))
    ensures Enabled(c1, Await(1, 20)) && AckedAlone(Replication.Step(c1, Await(1, 20)))
    ensures Replication.Step(c1, Await(1, 20)).logs == c1.logs && LeaderOf(Replication.Step(c1, Await(1, 20))) == 1
    ensures c1.logs.Keys == {1, 2} && |c1.logs[1]| == 1 && c1.logs[2] == []
  {
    hide Stamp;
    var o := c1.state.offsets.(leaderEnd := 1);
    TwoReplicas(c1.state.offsets, 0);
    TwoReplicas(o, 20);
    assert Wait(c1.state, 1, 20).closings == [];
    assert ISR(Recomputed(o, 20), 20) == {1};
  }
}
