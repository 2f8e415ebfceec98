/**
 The metadata log as a replicated state machine: the controller appends
 records and applies them, the other brokers pull its log and apply what they
 pull, and a restart replays the local log.
 */
module Metadata {
  import opened Wire
  import opened Lists
  import opened Topics
  import opened MetadataCodec

  // ----- the transition -----

  function Apply(registry: Registry, r: Record): Registry {
    match r
    case TopicUpsert(topic, partitions) => registry[topic := partitions]
    case TopicDelete(topic) => registry - {topic}
  }

  /** The registry that replaying these payloads from scratch builds; a payload
      that does not decode stops a replay, and changes nothing here. */
  function Replay(log: seq<Bytes>): Registry {
    if log == [] then map[]
    else
      var before, r := Replay(log[..|log| - 1]), ParseRecord(log[|log| - 1]);
      if r.Ok? then Apply(before, r.value) else before
  }

  predicate Decodes(payload: Bytes) { ParseRecord(payload).Ok? }

  datatype Broker = Broker(log: seq<Bytes>, registry: Registry)

  /** What the controller does for one record: append, then apply. */
  function Commit(b: Broker, r: Record): Broker {
    Broker(b.log + [RecordBytes(r)], Apply(b.registry, r))
  }

  function CommitAll(b: Broker, rs: seq<Record>): Broker {
    if rs == [] then b else Commit(CommitAll(b, rs[..|rs| - 1]), rs[|rs| - 1])
  }

  // ----- the controller's operations -----

  function FailOverAll(ps: seq<Partition>, dead: int, alive: set<int>): (qs: seq<Partition>)
    ensures |qs| == |ps|
  {
    seq(|ps|, i requires 0 <= i < |ps| => FailOver(ps[i], dead, alive))
  }

  /** Some partition of the topic gets a new leader. */
  predicate Changes(ps: seq<Partition>, dead: int, alive: set<int>) {
    exists i :: 0 <= i < |ps| && ps[i].leader == dead && Sorted(StillAlive(ps[i].isr, dead, alive)) != []
  }

  /** The records of OnPeerDown, in the order in which topics are visited. */
  function FailOverRecords(registry: Registry, order: seq<Bytes>, dead: int, alive: set<int>): seq<Record>
    requires forall name :: name in order ==> name in registry
  {
    if order == [] then []
    else
      var name := order[|order| - 1];
      var init := FailOverRecords(registry, order[..|order| - 1], dead, alive);
      if Changes(registry[name], dead, alive) then init + [TopicUpsert(name, FailOverAll(registry[name], dead, alive))]
      else init
  }

  /** Only the controller reassigns, and only partitions led by the dead broker. */
  method OnPeerDown(registry: Registry, order: seq<Bytes>, isController: bool, dead: int, alive: set<int>)
    returns (records: seq<Record>)
    requires forall name :: name in order ==> name in registry
    ensures records == if isController then FailOverRecords(registry, order, dead, alive) else []
  {
    hide FailOver, Sorted, StillAlive;
    records := [];
    if !isController { return; }
    for t := 0 to |order|
      invariant records == FailOverRecords(registry, order[..t], dead, alive)
    {
      assert order[..t + 1][..t] == order[..t];
      var changed, partitions := ReassignTopic(registry[order[t]], dead, alive);
      if changed { records := records + [TopicUpsert(order[t], partitions)]; }
    }
    assert order[..|order|] == order;
  }

  method ReassignTopic(ps: seq<Partition>, dead: int, alive: set<int>) returns (changed: bool, qs: seq<Partition>)
    ensures changed <==> Changes(ps, dead, alive)
    ensures qs == FailOverAll(ps, dead, alive)
  {
    hide Sorted, StillAlive;
    changed, qs := false, ps;
    for i := 0 to |ps|
      invariant |qs| == |ps|
      invariant qs[..i] == FailOverAll(ps, dead, alive)[..i] && qs[i..] == ps[i..]
      invariant changed <==>
                exists j :: 0 <= j < i && ps[j].leader == dead && Sorted(StillAlive(ps[j].isr, dead, alive)) != []
    {
      assert qs[i] == ps[i];
      ghost var was := qs;
      if qs[i].leader == dead {
        var live := LiveISR(qs[i].isr, dead, alive);
        if live != [] {
          qs := qs[i := qs[i].(leader := live[0], isr := live)];
          changed := true;
        }
      }
      assert qs[..i + 1] == was[..i] + [qs[i]] && qs[i + 1..] == was[i + 1..];
      assert FailOverAll(ps, dead, alive)[..i + 1] ==
             FailOverAll(ps, dead, alive)[..i] + [FailOver(ps[i], dead, alive)];
    }
  }

  // ----- the cluster -----

  datatype Cluster = Cluster(controller: int, members: seq<int>, brokers: map<int, Broker>)

  datatype Op =
    | CreateOp(name: Bytes, numPartitions: int, replicationFactor: int)
    | DeleteOp(name: Bytes)
    | PeerDownOp(order: seq<Bytes>, dead: int, alive: set<int>)
    | PullOp(broker: int, count: nat)
    | RestartOp(broker: int, kept: nat)  // a crash may have cut records off the end of its log

  /** A follower appends each pulled payload and applies its record. */
  function Pull(b: Broker, payload: Bytes): Broker {
    var r := ParseRecord(payload);
    Broker(b.log + [payload], if r.Ok? then Apply(b.registry, r.value) else b.registry)
  }

  /** One fetchOnce: payloads in order, up to one that does not decode. */
  function PullAll(b: Broker, payloads: seq<Bytes>): Broker
    decreases |payloads|
  {
    if payloads == [] then b
    else if !Decodes(payloads[0]) then Pull(b, payloads[0])
    else PullAll(Pull(b, payloads[0]), payloads[1..])
  }

  /** What is new for b in the controller's log, up to count records: a pull may
      be cut short at any record. */
  function NewPayloads(controllerLog: seq<Bytes>, b: Broker, count: nat): seq<Bytes> {
    if |b.log| >= |controllerLog| then []
    else
      var payloads := controllerLog[|b.log|..];
      if count < |payloads| then payloads[..count] else payloads
  }

  /** The records an operation commits at the controller. */
  function RecordsOf(c: Cluster, op: Op): seq<Record>
    requires c.controller in c.brokers
  {
    var registry := c.brokers[c.controller].registry;
    match op
    case CreateOp(name, n, rf) =>
      var r := CreatedTopic(registry, name, n, rf, c.members);
      if r.Created? then [TopicUpsert(name, r.partitions)] else []
    case DeleteOp(name) => if name in registry then [TopicDelete(name)] else []
    case PeerDownOp(order, dead, alive) =>
      if forall name :: name in order ==> name in registry then FailOverRecords(registry, order, dead, alive) else []
    case _ => []
  }

  function Step(c: Cluster, op: Op): Cluster
    requires c.controller in c.brokers
  {
    var ctl := c.brokers[c.controller];
    match op
    case PullOp(b, count) =>
      if b == c.controller || b !in c.brokers then c
      else c.(brokers := c.brokers[b := PullAll(c.brokers[b], NewPayloads(ctl.log, c.brokers[b], count))])
    case RestartOp(b, kept) =>
      if b !in c.brokers || kept > |c.brokers[b].log| then c
      else c.(brokers := c.brokers[b := Broker(c.brokers[b].log[..kept], Replay(c.brokers[b].log[..kept]))])
    case _ => c.(brokers := c.brokers[c.controller := CommitAll(ctl, RecordsOf(c, op))])
  }

  // ----- what every run keeps -----

  ghost predicate GoodPartitions(ps: seq<Partition>) {
    PartitionsFit(ps) && forall i :: 0 <= i < |ps| ==> WellShaped(ps[i]) && ps[i].id == i
  }

  ghost predicate GoodRecord(r: Record) {
    |r.topic| <= 32767 && (r.TopicUpsert? ==> GoodPartitions(r.partitions))
  }

  ghost predicate AllGood(rs: seq<Record>) {
    forall i :: 0 <= i < |rs| ==> GoodRecord(rs[i])
  }

  ghost predicate GoodPayload(payload: Bytes) {
    ParseRecord(payload).Ok? && GoodRecord(ParseRecord(payload).value)
  }

  ghost predicate GoodLog(log: seq<Bytes>) {
    forall i :: 0 <= i < |log| ==> GoodPayload(log[i])
  }

  ghost predicate GoodRegistry(registry: Registry) {
    forall name :: name in registry ==> |name| <= 32767 && GoodPartitions(registry[name])
  }

  ghost predicate GoodMembers(members: seq<int>) {
    Distinct(members) && IdsFit(members)
  }

  /** Followers' logs are prefixes of the controller's, and each registry is the
      replay of its own log, which holds well-shaped partitions only. */
  ghost predicate Inv(c: Cluster) {
    && GoodMembers(c.members)
    && c.controller in c.brokers
    && GoodLog(c.brokers[c.controller].log)
    && forall b :: b in c.brokers ==> Agrees(c.brokers[b], c.brokers[c.controller].log)
  }

  ghost predicate Agrees(b: Broker, controllerLog: seq<Bytes>) {
    b.log <= controllerLog && b.registry == Replay(b.log)
  }

  lemma {:induction false} ReplayGood(log: seq<Bytes>)
    requires GoodLog(log)
    ensures GoodRegistry(Replay(log))
  {
    hide ParseRecord, GoodPartitions;
    if log != [] {
      var n := |log| - 1;
      ReplayGood(log[..n]);
      assert GoodPayload(log[n]);
    }
  }

  /** Appending a record's bytes and applying the record agree. */
  lemma CommitReplays(b: Broker, r: Record)
    requires b.registry == Replay(b.log) && GoodLog(b.log) && GoodRecord(r)
    ensures var b' := Commit(b, r);
            b'.registry == Replay(b'.log) && GoodLog(b'.log) && b.log <= b'.log
  {
    hide ParseRecord, RecordBytes, GoodPartitions, PartitionsFit;
    assert PartsFit(r) by { GoodParts(r); }
    RecordRoundTrip(r);
    assert (b.log + [RecordBytes(r)])[..|b.log|] == b.log;
  }

  lemma GoodParts(r: Record)
    requires GoodRecord(r)
    ensures PartsFit(r)
  {}

  lemma {:induction false} CommitAllReplays(b: Broker, rs: seq<Record>)
    requires b.registry == Replay(b.log) && GoodLog(b.log)
    requires AllGood(rs)
    ensures var b' := CommitAll(b, rs);
            b'.registry == Replay(b'.log) && GoodLog(b'.log) && b.log <= b'.log
  {
    hide Commit, GoodRecord, Replay, GoodLog;
    if rs != [] {
      CommitAllReplays(b, rs[..|rs| - 1]);
      CommitReplays(CommitAll(b, rs[..|rs| - 1]), rs[|rs| - 1]);
    }
  }

  lemma {:induction false} PullAllReplays(b: Broker, payloads: seq<Bytes>)
    requires b.registry == Replay(b.log) && GoodLog(payloads)
    ensures var b' := PullAll(b, payloads);
            b'.log == b.log + payloads && b'.registry == Replay(b'.log)
    decreases |payloads|
  {
    hide ParseRecord, GoodRecord;
    if payloads != [] {
      assert GoodPayload(payloads[0]);
      PullReplays(b, payloads[0]);
      PullAllReplays(Pull(b, payloads[0]), payloads[1..]);
      assert b.log + payloads == (b.log + [payloads[0]]) + payloads[1..];
    } else {
      assert b.log + payloads == b.log;
    }
  }

  lemma PullReplays(b: Broker, payload: Bytes)
    requires b.registry == Replay(b.log)
    ensures Pull(b, payload).registry == Replay(Pull(b, payload).log)
  {
    assert (b.log + [payload])[..|b.log|] == b.log;
  }

  /** What the controller commits are good records. */
  lemma CreatedGood(members: seq<int>, registry: Registry, name: Bytes, n: int, rf: int)
    requires GoodMembers(members) && IsInt32(n)
    ensures var r := CreatedTopic(registry, name, n, rf, members);
            r.Created? ==> GoodPartitions(r.partitions)
  {
    hide ReplicasOf, WellShaped;
    var r := CreatedTopic(registry, name, n, rf, members);
    if r.Created? {
      forall i | 0 <= i < n
        ensures WellShaped(r.partitions[i]) && PartitionFits(r.partitions[i])
      {
        NewPartitionShaped(i, members, rf);
        ReplicasDistinct(i, members, rf);
        var rs := ReplicasOf(i, members, rf);
        assert forall k :: 0 <= k < |rs| ==> rs[k] in rs;
      }
    }
  }

  lemma FailOverGood(ps: seq<Partition>, dead: int, alive: set<int>)
    requires GoodPartitions(ps)
    ensures GoodPartitions(FailOverAll(ps, dead, alive))
  {
    hide WellShaped, FailOver;
    forall i | 0 <= i < |ps|
      ensures WellShaped(FailOver(ps[i], dead, alive)) && PartitionFits(FailOver(ps[i], dead, alive)) &&
              FailOver(ps[i], dead, alive).id == i
    {
      FailOverShaped(ps[i], dead, alive);
      FailOverFits(ps[i], dead, alive);
    }
  }

  lemma FailOverFits(p: Partition, dead: int, alive: set<int>)
    requires PartitionFits(p) && WellShaped(p)
    ensures PartitionFits(FailOver(p, dead, alive))
  {
    hide FailOver;
    FailOverShaped(p, dead, alive);
    var q := FailOver(p, dead, alive);
    FailOverShrinks(p, dead, alive);
    assert forall i :: 0 <= i < |q.isr| ==> q.isr[i] in q.isr;
    assert q.leader in q.isr;
  }

  lemma FailOverShrinks(p: Partition, dead: int, alive: set<int>)
    ensures |FailOver(p, dead, alive).isr| <= |p.isr|
  {
    var kept := StillAlive(p.isr, dead, alive);
    StillAliveShrinks(p.isr, dead, alive);
    assert |Sorted(kept)| == |multiset(Sorted(kept))| == |multiset(kept)| == |kept|;
  }

  lemma {:induction false} StillAliveShrinks(xs: seq<int>, dead: int, alive: set<int>)
    ensures |StillAlive(xs, dead, alive)| <= |xs|
  {
    if xs != [] { StillAliveShrinks(xs[..|xs| - 1], dead, alive); }
  }

  lemma {:induction false} FailOverRecordsGood(registry: Registry, order: seq<Bytes>, dead: int, alive: set<int>)
    requires GoodRegistry(registry) && forall name :: name in order ==> name in registry
    ensures AllGood(FailOverRecords(registry, order, dead, alive))
  {
    hide GoodPartitions, FailOver, Sorted, StillAlive;
    if order != [] {
      var name := order[|order| - 1];
      assert name in order && name in registry;
      FailOverRecordsGood(registry, order[..|order| - 1], dead, alive);
      FailOverGood(registry[name], dead, alive);
    }
  }

  // ----- what each operation does to the topics -----

  /** Some partition of the topic lost its leader and has an heir. */
  ghost predicate Orphaned(ps: seq<Partition>, dead: int, alive: set<int>) {
    exists i :: 0 <= i < |ps| && ps[i].leader == dead && HasHeir(ps[i], dead, alive)
  }

  lemma OrphanedIff(ps: seq<Partition>, dead: int, alive: set<int>)
    ensures Changes(ps, dead, alive) <==> Orphaned(ps, dead, alive)
  {
    hide Sorted, StillAlive;
    forall i | 0 <= i < |ps|
      ensures Sorted(StillAlive(ps[i].isr, dead, alive)) != [] <==> HasHeir(ps[i], dead, alive)
    {
      HeirIff(ps[i].isr, dead, alive);
    }
  }

  ghost predicate Recorded(records: seq<Record>, name: Bytes) {
    exists i :: 0 <= i < |records| && records[i].topic == name
  }

  /** The failover commits a record for a visited topic exactly when one of its
      partitions lost its leader and has an heir. */
  lemma {:induction false} RecordedIff(registry: Registry, order: seq<Bytes>, dead: int, alive: set<int>, name: Bytes)
    requires forall x :: x in order ==> x in registry
    ensures Recorded(FailOverRecords(registry, order, dead, alive), name) <==>
            name in order && Orphaned(registry[name], dead, alive)
  {
    hide Changes, FailOver;
    if order != [] {
      var n := |order| - 1;
      assert order == order[..n] + [order[n]];
      RecordedIff(registry, order[..n], dead, alive, name);
      OrphanedIff(registry[order[n]], dead, alive);
      var init := FailOverRecords(registry, order[..n], dead, alive);
      var all := FailOverRecords(registry, order, dead, alive);
      if Recorded(init, name) {
        var i :| 0 <= i < |init| && init[i].topic == name;
        assert all[i].topic == name;
      }
      if Changes(registry[order[n]], dead, alive) { assert all[|init|].topic == order[n]; }
    }
  }

  /** All partitions of the visited topics are failed over, and nothing else changes. */
  ghost predicate FailedOver(registry: Registry, registry': Registry, order: seq<Bytes>, dead: int, alive: set<int>) {
    && registry'.Keys == registry.Keys
    && forall name :: name in registry ==>
         if name in order then Inherited(registry[name], registry'[name], dead, alive)
         else registry'[name] == registry[name]
  }

  ghost predicate Inherited(ps: seq<Partition>, qs: seq<Partition>, dead: int, alive: set<int>) {
    |qs| == |ps| && forall i :: 0 <= i < |ps| ==> Inherits(ps[i], qs[i], dead, alive)
  }

  lemma AllInherit(ps: seq<Partition>, dead: int, alive: set<int>)
    requires GoodPartitions(ps)
    ensures Inherited(ps, FailOverAll(ps, dead, alive), dead, alive)
    ensures !Changes(ps, dead, alive) ==> FailOverAll(ps, dead, alive) == ps
  {
    hide FailOver, WellShaped, Inherits, Sorted, StillAlive;
    forall i | 0 <= i < |ps|
      ensures Inherits(ps[i], FailOver(ps[i], dead, alive), dead, alive)
      ensures !Changes(ps, dead, alive) ==> FailOver(ps[i], dead, alive) == ps[i]
    {
      FailOverInherits(ps[i], dead, alive);
      if !Changes(ps, dead, alive) { NoHeirStays(ps[i], dead, alive); }
    }
  }

  lemma NoHeirStays(p: Partition, dead: int, alive: set<int>)
    requires !(p.leader == dead && Sorted(StillAlive(p.isr, dead, alive)) != [])
    ensures FailOver(p, dead, alive) == p
  {}

  /** Committing the records of a failover leaves no partition of a visited topic
      with the dead leader where an heir exists, and changes no other partition. */
  lemma {:induction false} CommitFailsOver(b: Broker, order: seq<Bytes>, dead: int, alive: set<int>)
    requires GoodRegistry(b.registry) && forall name :: name in order ==> name in b.registry
    ensures FailedOver(b.registry, CommitAll(b, FailOverRecords(b.registry, order, dead, alive)).registry,
                       order, dead, alive)
  {
    hide GoodPartitions, FailOver, Inherited, RecordBytes, Changes, FailOverAll, FailedOver;
    if order == [] { NobodyVisited(b.registry, dead, alive); }
    else {
      var n := |order| - 1;
      var name, init := order[n], FailOverRecords(b.registry, order[..n], dead, alive);
      CommitFailsOver(b, order[..n], dead, alive);
      AllInherit(b.registry[name], dead, alive);
      VisitOne(b.registry, CommitAll(b, init).registry, order, dead, alive, FailOverAll(b.registry[name], dead, alive));
      if Changes(b.registry[name], dead, alive) {
        var r := TopicUpsert(name, FailOverAll(b.registry[name], dead, alive));
        assert (init + [r])[..|init|] == init;
      }
    }
  }

  lemma NobodyVisited(registry: Registry, dead: int, alive: set<int>)
    ensures FailedOver(registry, registry, [], dead, alive)
  {}

  /** The last topic of the order is replaced, or stays as it is if that comes to the same. */
  lemma VisitOne(registry: Registry, before: Registry, order: seq<Bytes>, dead: int, alive: set<int>,
                 qs: seq<Partition>)
    requires order != [] && order[|order| - 1] in registry
    requires FailedOver(registry, before, order[..|order| - 1], dead, alive)
    requires Inherited(registry[order[|order| - 1]], qs, dead, alive)
    ensures FailedOver(registry, before[order[|order| - 1] := qs], order, dead, alive)
    ensures qs == registry[order[|order| - 1]] ==> FailedOver(registry, before, order, dead, alive)
  {
    hide Inherited;
    var n := |order| - 1;
    assert order == order[..n] + [order[n]];
    assert before[order[n] := qs].Keys == registry.Keys;
  }

  /** A created topic is there as the request says; a deleted one is gone; a failover
      moves the leads of the visited topics; and no other topic changes. */
  ghost predicate TopicsMove(registry: Registry, registry': Registry, op: Op, members: seq<int>) {
    match op
    case CreateOp(name, n, rf) =>
      if n > 0 && 0 < rf <= |members| && name !in registry then
        name in registry' && AsNew(registry'[name], n, rf, members) && SameBut(registry, registry', name)
      else registry' == registry
    case DeleteOp(name) => name !in registry' && SameBut(registry, registry', name)
    case PeerDownOp(order, dead, alive) =>
      if forall name :: name in order ==> name in registry then FailedOver(registry, registry', order, dead, alive)
      else registry' == registry
    case _ => registry' == registry
  }

  ghost predicate SameBut(registry: Registry, registry': Registry, name: Bytes) {
    forall t :: t != name ==> (t in registry' <==> t in registry) && (t in registry ==> registry'[t] == registry[t])
  }

  /** What an operation does to the topics that the controller knows. */
  lemma TopicsAfter(c: Cluster, op: Op)
    requires Inv(c) && (op.RestartOp? ==> op.broker != c.controller)
    ensures TopicsMove(c.brokers[c.controller].registry, Step(c, op).brokers[c.controller].registry, op, c.members)
  {
    hide GoodLog, GoodMembers, GoodPartitions, PullAll, FailedOver, FailOverRecords, TopicsMove, RecordsOf, CommitAll;
    var ctl := c.brokers[c.controller];
    assert Agrees(ctl, ctl.log);
    ReplayGood(ctl.log);
    hide Replay;
    match op
    case CreateOp(name, n, rf) => CommitCreates(c, name, n, rf);
    case DeleteOp(name) => CommitDeletes(c, name);
    case PeerDownOp(order, dead, alive) => CommitMoves(c, order, dead, alive);
    case PullOp(_, _) => NoTopicMoves(ctl.registry, op, c.members);
    case RestartOp(_, _) => NoTopicMoves(ctl.registry, op, c.members);
  }

  lemma NoTopicMoves(registry: Registry, op: Op, members: seq<int>)
    requires op.PullOp? || op.RestartOp?
    ensures TopicsMove(registry, registry, op, members)
  {}

  lemma CommitCreates(c: Cluster, name: Bytes, n: int, rf: int)
    requires c.controller in c.brokers
    ensures var ctl, op := c.brokers[c.controller], CreateOp(name, n, rf);
            TopicsMove(ctl.registry, CommitAll(ctl, RecordsOf(c, op)).registry, op, c.members)
  {
    hide AsNew, CreatedTopic, RecordBytes;
    var ctl := c.brokers[c.controller];
    CreatedIs(ctl.registry, name, n, rf, c.members);
    var r := CreatedTopic(ctl.registry, name, n, rf, c.members);
    if r.Created? { CommitOne(ctl, TopicUpsert(name, r.partitions)); }
  }

  lemma CommitDeletes(c: Cluster, name: Bytes)
    requires c.controller in c.brokers
    ensures var ctl := c.brokers[c.controller];
            TopicsMove(ctl.registry, CommitAll(ctl, RecordsOf(c, DeleteOp(name))).registry, DeleteOp(name), c.members)
  {
    hide RecordBytes;
    var ctl := c.brokers[c.controller];
    if name in ctl.registry { CommitOne(ctl, TopicDelete(name)); }
  }

  lemma CommitMoves(c: Cluster, order: seq<Bytes>, dead: int, alive: set<int>)
    requires c.controller in c.brokers && GoodRegistry(c.brokers[c.controller].registry)
    ensures var ctl, op := c.brokers[c.controller], PeerDownOp(order, dead, alive);
            TopicsMove(ctl.registry, CommitAll(ctl, RecordsOf(c, op)).registry, op, c.members)
  {
    hide GoodPartitions, FailedOver, FailOverRecords;
    var ctl := c.brokers[c.controller];
    if forall name :: name in order ==> name in ctl.registry { CommitFailsOver(ctl, order, dead, alive); }
  }

  lemma CommitOne(b: Broker, r: Record)
    ensures CommitAll(b, [r]) == Commit(b, r)
  {
    assert [r][..0] == [] && CommitAll(b, []) == b;
  }

  /** A pull brings a broker that many records closer to the controller, and one that
      brings all of them leaves it with the controller's log and registry. */
  lemma PullConverges(c: Cluster, b: int, count: nat)
    requires Inv(c) && b in c.brokers && b != c.controller
    ensures var ctl, d := c.brokers[c.controller], Step(c, PullOp(b, count)).brokers[b];
            && d.log <= ctl.log
            && |d.log| == (if |c.brokers[b].log| + count < |ctl.log| then |c.brokers[b].log| + count else |ctl.log|)
            && (|c.brokers[b].log| + count >= |ctl.log| ==> d == ctl)
  {
    hide GoodPayload, GoodMembers, PullAll, Replay, NewPayloads;
    var ctl, before := c.brokers[c.controller], c.brokers[b];
    assert Agrees(ctl, ctl.log) && Agrees(before, ctl.log);
    NewGood(ctl.log, before, count);
    NewReaches(ctl.log, before, count);
    PullAllReplays(before, NewPayloads(ctl.log, before, count));
    assert ctl.log[..|ctl.log|] == ctl.log;
  }

  lemma NewReaches(controllerLog: seq<Bytes>, b: Broker, count: nat)
    requires b.log <= controllerLog
    ensures var end := if |b.log| + count < |controllerLog| then |b.log| + count else |controllerLog|;
            b.log + NewPayloads(controllerLog, b, count) == controllerLog[..end]
  {}

  /** An operation that the wire can carry: names and counts fit their fields. */
  predicate Sent(op: Op) {
    op.CreateOp? ==> |op.name| <= 32767 && IsInt32(op.numPartitions)
  }

  lemma RecordsGood(c: Cluster, op: Op)
    requires Inv(c) && Sent(op)
    ensures AllGood(RecordsOf(c, op))
  {
    hide GoodPartitions, CreatedTopic, FailOverRecords, GoodLog;
    var ctl := c.brokers[c.controller];
    assert Agrees(ctl, ctl.log);
    ReplayGood(ctl.log);
    match op
    case CreateOp(name, n, rf) => CreatedGood(c.members, ctl.registry, name, n, rf);
    case PeerDownOp(order, dead, alive) =>
      if forall name :: name in order ==> name in ctl.registry {
        FailOverRecordsGood(ctl.registry, order, dead, alive);
      }
    case _ =>
  }

  lemma NewGood(controllerLog: seq<Bytes>, b: Broker, count: nat)
    requires GoodLog(controllerLog) && b.log <= controllerLog
    ensures var payloads := NewPayloads(controllerLog, b, count);
            GoodLog(payloads) && b.log + payloads <= controllerLog
  {
    hide GoodPayload;
  }

  /** A controller that restarts has kept everything that a follower has pulled. */
  ghost predicate KeepsEnough(c: Cluster, op: Op)
    requires c.controller in c.brokers
  {
    op.RestartOp? && op.broker == c.controller && op.kept <= |c.brokers[c.controller].log| ==>
      forall b :: b in c.brokers && b != c.controller ==> |c.brokers[b].log| <= op.kept
  }

  /** A step keeps the cluster in agreement if and only if it is no restart of the
      controller that lost what a follower has pulled. */
  lemma StepKeepsIff(c: Cluster, op: Op)
    requires Inv(c) && Sent(op)
    ensures Inv(Step(c, op)) <==> KeepsEnough(c, op)
  {
    hide GoodLog, GoodMembers, Replay, RecordsOf, CommitAll, PullAll;
    if KeepsEnough(c, op) { StepKeeps(c, op); }
    else {
      var b :| b in c.brokers && b != c.controller && |c.brokers[b].log| > op.kept;
      assert !Agrees(Step(c, op).brokers[b], Step(c, op).brokers[c.controller].log);
    }
  }

  lemma StepKeeps(c: Cluster, op: Op)
    requires Inv(c) && Sent(op) && KeepsEnough(c, op)
    ensures Inv(Step(c, op)) && Step(c, op).controller == c.controller
  {
    hide GoodLog, GoodMembers, Replay, RecordsOf, CommitAll, PullAll;
    var ctl, c' := c.brokers[c.controller], Step(c, op);
    assert Agrees(ctl, ctl.log);
    match op
    case PullOp(b, count) =>
      if b != c.controller && b in c.brokers {
        assert Agrees(c.brokers[b], ctl.log);
        var payloads := NewPayloads(ctl.log, c.brokers[b], count);
        NewGood(ctl.log, c.brokers[b], count);
        PullAllReplays(c.brokers[b], payloads);
      }
    case RestartOp(b, kept) =>
      if b in c.brokers && kept <= |c.brokers[b].log| { RestartKeeps(c, b, kept); }
    case _ =>
      RecordsGood(c, op);
      CommitAllReplays(ctl, RecordsOf(c, op));
  }

  lemma RestartKeeps(c: Cluster, b: int, kept: nat)
    requires Inv(c) && b in c.brokers && kept <= |c.brokers[b].log| && KeepsEnough(c, RestartOp(b, kept))
    ensures Inv(Step(c, RestartOp(b, kept)))
  {
    hide GoodPayload, GoodMembers, Replay;
    var ctl, c' := c.brokers[c.controller], Step(c, RestartOp(b, kept));
    forall x | x in c'.brokers ensures Agrees(c'.brokers[x], c'.brokers[c.controller].log) {
      assert Agrees(c.brokers[x], ctl.log);
    }
  }

  function Run(c: Cluster, ops: seq<Op>): Cluster
    requires c.controller in c.brokers
    ensures Run(c, ops).controller in Run(c, ops).brokers
  {
    if ops == [] then c else Step(Run(c, ops[..|ops| - 1]), ops[|ops| - 1])
  }

  function Fresh(controller: int, members: seq<int>): Cluster {
    Cluster(controller, members, map b | b in members :: Broker([], map[]))
  }

  ghost predicate AllKeepEnough(c: Cluster, ops: seq<Op>)
    requires c.controller in c.brokers
  {
    ops == [] || (AllKeepEnough(c, ops[..|ops| - 1]) && KeepsEnough(Run(c, ops[..|ops| - 1]), ops[|ops| - 1]))
  }

  ghost predicate InvThroughout(c: Cluster, ops: seq<Op>)
    requires c.controller in c.brokers
  {
    Inv(Run(c, ops)) && (ops == [] || InvThroughout(c, ops[..|ops| - 1]))
  }

  predicate AllSent(ops: seq<Op>) { forall i :: 0 <= i < |ops| ==> Sent(ops[i]) }

  lemma FreshAgrees(controller: int, members: seq<int>)
    requires controller in members && GoodMembers(members)
    ensures Inv(Fresh(controller, members))
  {}

  /** With a fixed controller, over any run of topic creations and deletions,
      failovers, pulls cut short anywhere, and restarts that may have lost records:
      every log is a prefix of the controller's, every registry is the replay of
      its own log, and every partition in it is well shaped. */
  lemma {:induction false} RunKeeps(controller: int, members: seq<int>, ops: seq<Op>)
    requires controller in members && GoodMembers(members) && AllSent(ops)
    requires AllKeepEnough(Fresh(controller, members), ops)
    ensures Inv(Run(Fresh(controller, members), ops))
  {
    hide Step, Inv, KeepsEnough;
    if ops == [] { FreshAgrees(controller, members); }
    else {
      RunKeeps(controller, members, ops[..|ops| - 1]);
      StepKeeps(Run(Fresh(controller, members), ops[..|ops| - 1]), ops[|ops| - 1]);
    }
  }

  /** Over every run: in agreement at each moment if and only if no restart of the
      controller lost what a follower had pulled. */
  lemma {:induction false} RunKeepsIff(controller: int, members: seq<int>, ops: seq<Op>)
    requires controller in members && GoodMembers(members) && AllSent(ops)
    ensures var c := Fresh(controller, members); InvThroughout(c, ops) <==> AllKeepEnough(c, ops)
  {
    hide Step, Inv, KeepsEnough;
    var c := Fresh(controller, members);
    if ops == [] { FreshAgrees(controller, members); }
    else {
      var n := |ops| - 1;
      RunKeepsIff(controller, members, ops[..n]);
      if InvThroughout(c, ops[..n]) { StepKeepsIff(Run(c, ops[..n]), ops[n]); }
    }
  }

  /** A restart that lost nothing changes nothing. */
  lemma RestartRebuilds(c: Cluster, b: int)
    requires Inv(c) && b in c.brokers
    ensures Step(c, RestartOp(b, |c.brokers[b].log|)) == c
    ensures GoodRegistry(c.brokers[b].registry)
  {
    hide Replay, GoodPayload;
    var log := c.brokers[b].log;
    assert Agrees(c.brokers[b], c.brokers[c.controller].log);
    assert log[..|log|] == log;
    ReplayGood(log);
  }

  /** Broker 2 pulls a record that controller 1 then loses. */
  lemma ControllerLosesRecords(name: Bytes)
    requires |name| <= 32767
    ensures var ops := [CreateOp(name, 1, 1), PullOp(2, 1), RestartOp(1, 0)];
            AllSent(ops) && !InvThroughout(Fresh(1, [1, 2]), ops)
  {
    hide Inv, Step, KeepsEnough;
    var c, ops := Fresh(1, [1, 2]), [CreateOp(name, 1, 1), PullOp(2, 1), RestartOp(1, 0)];
    assert ops[..2][..1] == ops[..1] && ops[..1][..0] == [];
    assert Run(c, ops[..0]) == c;
    CreatesOne(c, name);
    PullsOne(Run(c, ops[..1]));
    LosesPulled(Run(c, ops[..2]));
    RunKeepsIff(1, [1, 2], ops);
  }

  lemma LosesPulled(c: Cluster)
    requires c.controller == 1 && 1 in c.brokers && 2 in c.brokers && |c.brokers[2].log| == 1
    ensures !KeepsEnough(c, RestartOp(1, 0))
  {}

  lemma CreatesOne(c: Cluster, name: Bytes)
    requires c == Fresh(1, [1, 2])
    ensures var d := Step(c, CreateOp(name, 1, 1));
            d.controller == 1 && 1 in d.brokers && |d.brokers[1].log| == 1 && 2 in d.brokers && d.brokers[2].log == []
  {
    hide NewPartitions, RecordBytes, Apply;
    var rs := RecordsOf(c, CreateOp(name, 1, 1));
    assert |rs| == 1 && rs[..0] == [];
    assert CommitAll(c.brokers[1], rs) == Commit(CommitAll(c.brokers[1], rs[..0]), rs[0]);
  }

  lemma PullsOne(c: Cluster)
    requires c.controller == 1 && 1 in c.brokers && |c.brokers[1].log| == 1 && 2 in c.brokers && c.brokers[2].log == []
    ensures var d := Step(c, PullOp(2, 1));
            d.controller == 1 && 1 in d.brokers && 2 in d.brokers && |d.brokers[2].log| == 1
  {
    hide ParseRecord, Apply;
    var payloads := NewPayloads(c.brokers[1].log, c.brokers[2], 1);
    assert |payloads| == 1 && payloads[1..] == [];
    assert PullAll(Pull(c.brokers[2], payloads[0]), []) == Pull(c.brokers[2], payloads[0]);
  }
}
