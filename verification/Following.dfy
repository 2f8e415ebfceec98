/** Whom a broker follows and what it leads, as metadata records are applied. */
module Following {
  import opened Wire
  import opened Topics
  import opened Metadata
  import opened MetadataCodec
  import Durability
  import Replication
  import Watermark

  datatype Key = Key(topic: Bytes, partition: int)

  /** Running fetchers with the leader they ask, and led partitions with the replicas their state was built from. */
  datatype Roles = Roles(fetchers: map<Key, int>, led: map<Key, seq<int>>)

  /** One broker: its id and the brokers it knows. */
  datatype Self = Self(id: int, members: set<int>)

  predicate Leads(self: Self, p: Partition) { self.id in p.replicas && p.leader == self.id }

  predicate Follows(self: Self, p: Partition) {
    self.id in p.replicas && p.leader != self.id && p.leader in self.members
  }

  function Stop(r: Roles, key: Key): Roles { r.(fetchers := r.fetchers - {key}) }

  function Tracked(p: Partition): seq<int> { if p.isr == [] then p.replicas else p.isr }

  function StartOne(self: Self, r: Roles, topic: Bytes, p: Partition): Roles {
    var key := Key(topic, p.id);
    if Leads(self, p) then
      var stopped := Stop(r, key);
      if key in r.led then stopped else stopped.(led := r.led[key := Tracked(p)])
    else if !Follows(self, p) || key in r.fetchers then r
    else Roles(r.fetchers[key := p.leader], r.led - {key})
  }

  function StartAll(self: Self, r: Roles, topic: Bytes, ps: seq<Partition>): Roles {
    if ps == [] then r else StartOne(self, StartAll(self, r, topic, ps[..|ps| - 1]), topic, ps[|ps| - 1])
  }

  function StopAll(r: Roles, topic: Bytes, ps: seq<Partition>): Roles {
    if ps == [] then r else Stop(StopAll(r, topic, ps[..|ps| - 1]), Key(topic, ps[|ps| - 1].id))
  }

  datatype Node = Node(registry: Registry, roles: Roles)

  function Applied(self: Self, n: Node, record: Record): Node {
    match record
    case TopicUpsert(topic, ps) =>
      Node(Apply(n.registry, record), StartAll(self, StopAll(n.roles, topic, ps), topic, ps))
    case TopicDelete(_) => Node(Apply(n.registry, record), n.roles)
  }

  // ----- led and followed are disjoint -----

  ghost predicate Exclusive(r: Roles) { forall key :: key in r.fetchers ==> key !in r.led }

  lemma {:induction false} StartKeepsExclusive(self: Self, r: Roles, topic: Bytes, ps: seq<Partition>)
    requires Exclusive(r)
    ensures Exclusive(StartAll(self, r, topic, ps))
  {
    if ps != [] { StartKeepsExclusive(self, r, topic, ps[..|ps| - 1]); }
  }

  // ----- the fetchers after a record -----

  lemma {:induction false} StopAllIs(r: Roles, topic: Bytes, ps: seq<Partition>)
    ensures StopAll(r, topic, ps).led == r.led
    ensures forall key :: key in StopAll(r, topic, ps).fetchers <==>
              key in r.fetchers && !(key.topic == topic && Mentions(ps, key.partition))
    ensures forall key :: key in StopAll(r, topic, ps).fetchers ==>
            StopAll(r, topic, ps).fetchers[key] == r.fetchers[key]
  {
    if ps != [] {
      var n := |ps| - 1;
      StopAllIs(r, topic, ps[..n]);
      forall id ensures Mentions(ps, id) <==> Mentions(ps[..n], id) || ps[n].id == id { MentionsLast(ps, id); }
    }
  }

  predicate Mentions(ps: seq<Partition>, id: int) { exists i :: 0 <= i < |ps| && ps[i].id == id }

  lemma MentionsLast(ps: seq<Partition>, id: int)
    requires ps != []
    ensures Mentions(ps, id) <==> Mentions(ps[..|ps| - 1], id) || ps[|ps| - 1].id == id
  {
    var n := |ps| - 1;
    if i :| 0 <= i < |ps| && ps[i].id == id { assert i < n ==> ps[..n][i].id == id; }
    if i :| 0 <= i < n && ps[..n][i].id == id { assert ps[i].id == id; }
  }

  /** Entry i is followed and no later entry of its partition is led. */
  ghost predicate Prevails(self: Self, ps: seq<Partition>, i: nat)
    requires i < |ps|
  {
    Follows(self, ps[i]) && forall j :: i < j < |ps| && ps[j].id == ps[i].id ==> !Leads(self, ps[j])
  }

  lemma PrevailsLast(self: Self, ps: seq<Partition>, i: nat)
    requires i < |ps| - 1
    ensures Prevails(self, ps, i) <==>
              Prevails(self, ps[..|ps| - 1], i) && !(ps[|ps| - 1].id == ps[i].id && Leads(self, ps[|ps| - 1]))
  {
    var n := |ps| - 1;
    hide Leads, Follows;
    if Prevails(self, ps, i) {
      forall j | i < j < n && ps[..n][j].id == ps[..n][i].id ensures !Leads(self, ps[..n][j]) {
        assert ps[j] == ps[..n][j];
      }
    }
    if Prevails(self, ps[..n], i) && !(ps[n].id == ps[i].id && Leads(self, ps[n])) {
      forall j | i < j < |ps| && ps[j].id == ps[i].id ensures !Leads(self, ps[j]) {
        if j < n { assert ps[j] == ps[..n][j]; }
      }
    }
  }

  ghost predicate Chosen(self: Self, ps: seq<Partition>, id: int, leader: int) {
    exists i :: 0 <= i < |ps| && ps[i].id == id && ps[i].leader == leader && Prevails(self, ps, i)
  }

  /** From no fetcher for the partition: one runs afterwards exactly when some
      entry prevails, and asks such an entry's leader. */
  lemma {:induction false} FetcherIs(self: Self, r: Roles, topic: Bytes, ps: seq<Partition>, id: int)
    requires Key(topic, id) !in r.fetchers
    ensures var key, after := Key(topic, id), StartAll(self, r, topic, ps).fetchers;
            && (key in after ==> Chosen(self, ps, id, after[key]))
            && (forall leader :: Chosen(self, ps, id, leader) ==> key in after)
  {
    hide Leads, Follows, Prevails;
    if ps != [] {
      var n := |ps| - 1;
      var p, key, before := ps[n], Key(topic, id), StartAll(self, r, topic, ps[..n]);
      FetcherIs(self, r, topic, ps[..n], id);
      var after := StartAll(self, r, topic, ps);
      if p.id != id { Untouched(self, before, topic, p, key); }
      forall leader | Chosen(self, ps, id, leader) ensures key in after.fetchers {
        var i :| 0 <= i < |ps| && ps[i].id == id && ps[i].leader == leader && Prevails(self, ps, i);
        if i < n {
          PrevailsLast(self, ps, i);
          assert ps[..n][i] == ps[i] && Chosen(self, ps[..n], id, leader);
        }
        LastPrevails(self, ps);
        StartOneIs(self, before, topic, p);
      }
      if key in after.fetchers {
        StartOneIs(self, before, topic, p);
        LastPrevails(self, ps);
        if key in before.fetchers {
          var i :| 0 <= i < n && ps[..n][i].id == id && ps[..n][i].leader == before.fetchers[key] &&
            Prevails(self, ps[..n], i);
          PrevailsLast(self, ps, i);
          assert ps[i] == ps[..n][i];
        }
      }
    }
  }

  lemma LastPrevails(self: Self, ps: seq<Partition>)
    requires ps != []
    ensures Prevails(self, ps, |ps| - 1) <==> Follows(self, ps[|ps| - 1])
  {}

  lemma Untouched(self: Self, r: Roles, topic: Bytes, p: Partition, key: Key)
    requires key != Key(topic, p.id)
    ensures var after := StartOne(self, r, topic, p).fetchers;
            (key in after <==> key in r.fetchers) && (key in after ==> after[key] == r.fetchers[key])
  {}

  lemma StartOneIs(self: Self, r: Roles, topic: Bytes, p: Partition)
    ensures var key, after := Key(topic, p.id), StartOne(self, r, topic, p).fetchers;
            && (key in after <==> !Leads(self, p) && (key in r.fetchers || Follows(self, p)))
            && (key in after ==> after[key] == if key in r.fetchers then r.fetchers[key] else p.leader)
    ensures Follows(self, p) ==> !Leads(self, p)
  {}

  lemma {:induction false} OtherTopics(self: Self, r: Roles, topic: Bytes, ps: seq<Partition>, key: Key)
    requires key.topic != topic
    ensures var after := StartAll(self, r, topic, ps).fetchers;
            (key in after <==> key in r.fetchers) && (key in after ==> after[key] == r.fetchers[key])
  {
    hide Leads, Follows;
    if ps != [] {
      OtherTopics(self, r, topic, ps[..|ps| - 1], key);
      Untouched(self, StartAll(self, r, topic, ps[..|ps| - 1]), topic, ps[|ps| - 1], key);
    }
  }

  // ----- agreement -----

  /** Every running fetcher of a partition that the topic lists asks its leader. */
  ghost predicate TopicAgrees(roles: Roles, topic: Bytes, ps: seq<Partition>) {
    forall i :: 0 <= i < |ps| ==>
      (Key(topic, ps[i].id) in roles.fetchers ==> roles.fetchers[Key(topic, ps[i].id)] == ps[i].leader)
  }

  ghost predicate Agreed(n: Node) { forall t :: t in n.registry ==> TopicAgrees(n.roles, t, n.registry[t]) }

  /** Where an entry prevails, all entries of its partition name one leader. */
  ghost predicate Consistent(self: Self, ps: seq<Partition>) {
    forall i, j :: 0 <= i < |ps| && 0 <= j < |ps| && ps[i].id == ps[j].id && Prevails(self, ps, i) ==>
      ps[j].leader == ps[i].leader
  }

  /** After a record, fetchers and leaders agree exactly when the record is consistent. */
  lemma UpsertAgreesIff(self: Self, n: Node, topic: Bytes, ps: seq<Partition>)
    requires Agreed(n)
    ensures Agreed(Applied(self, n, TopicUpsert(topic, ps))) <==> Consistent(self, ps)
  {
    hide Consistent, StartAll, StopAll, TopicAgrees;
    var stopped := StopAll(n.roles, topic, ps);
    var after := Applied(self, n, TopicUpsert(topic, ps));
    StopAllIs(n.roles, topic, ps);
    forall t | t in after.registry && t != topic ensures TopicAgrees(after.roles, t, after.registry[t]) {
      OtherAgrees(self, n, topic, ps, t);
    }
    UpsertedAgrees(self, stopped, topic, ps);
    assert topic in after.registry && after.registry[topic] == ps && after.roles == StartAll(self, stopped, topic, ps);
  }

  lemma OtherAgrees(self: Self, n: Node, topic: Bytes, ps: seq<Partition>, t: Bytes)
    requires Agreed(n) && t in n.registry && t != topic
    ensures TopicAgrees(Applied(self, n, TopicUpsert(topic, ps)).roles, t, n.registry[t])
  {
    hide StartAll, StopAll;
    var qs := n.registry[t];
    assert TopicAgrees(n.roles, t, qs);
    StopAllIs(n.roles, topic, ps);
    forall i | 0 <= i < |qs| { OtherTopics(self, StopAll(n.roles, topic, ps), topic, ps, Key(t, qs[i].id)); }
  }

  lemma UpsertedAgrees(self: Self, r: Roles, topic: Bytes, ps: seq<Partition>)
    requires forall key :: key in r.fetchers ==> !(key.topic == topic && Mentions(ps, key.partition))
    ensures TopicAgrees(StartAll(self, r, topic, ps), topic, ps) <==> Consistent(self, ps)
  {
    hide Prevails, StartAll;
    var after := StartAll(self, r, topic, ps);
    forall i | 0 <= i < |ps|
      ensures Key(topic, ps[i].id) in after.fetchers ==>
              Chosen(self, ps, ps[i].id, after.fetchers[Key(topic, ps[i].id)])
      ensures forall leader :: Chosen(self, ps, ps[i].id, leader) ==> Key(topic, ps[i].id) in after.fetchers
    {
      assert Mentions(ps, ps[i].id);
      FetcherIs(self, r, topic, ps, ps[i].id);
    }
    if TopicAgrees(after, topic, ps) {
      forall i, j | 0 <= i < |ps| && 0 <= j < |ps| && ps[i].id == ps[j].id && Prevails(self, ps, i)
        ensures ps[j].leader == ps[i].leader
      {
        assert Chosen(self, ps, ps[i].id, ps[i].leader);
      }
    }
  }

  // ----- what each partition of a record comes to -----

  predicate DistinctIds(ps: seq<Partition>) { forall i, j :: 0 <= i < j < |ps| ==> ps[i].id != ps[j].id }

  /** The roles of one key, as a record leaves them. */
  ghost predicate SameAt(r: Roles, r': Roles, key: Key) {
    && (key in r'.fetchers <==> key in r.fetchers) && (key in r'.fetchers ==> r'.fetchers[key] == r.fetchers[key])
    && (key in r'.led <==> key in r.led) && (key in r'.led ==> r'.led[key] == r.led[key])
  }

  lemma OneTouches(self: Self, r: Roles, topic: Bytes, p: Partition, key: Key)
    requires key != Key(topic, p.id)
    ensures SameAt(r, StartOne(self, r, topic, p), key)
  {}

  lemma {:induction false} UnmentionedStay(self: Self, r: Roles, topic: Bytes, ps: seq<Partition>, key: Key)
    requires key.topic != topic || !Mentions(ps, key.partition)
    ensures SameAt(r, StartAll(self, r, topic, ps), key)
  {
    hide Leads, Follows;
    if ps != [] {
      var n := |ps| - 1;
      MentionsLast(ps, key.partition);
      UnmentionedStay(self, r, topic, ps[..n], key);
      OneTouches(self, StartAll(self, r, topic, ps[..n]), topic, ps[n], key);
    }
  }

  /** Led exactly when this broker is named leader, or led before and following
      nobody now, on the replicas of the record that began the lead; followed
      exactly when another known broker leads and this one is a replica. */
  ghost predicate RoleIs(self: Self, r: Roles, r': Roles, topic: Bytes, p: Partition) {
    var key, replica := Key(topic, p.id), self.id in p.replicas;
    var leads, follows := replica && p.leader == self.id, replica && p.leader != self.id && p.leader in self.members;
    && (key in r'.led <==> leads || (key in r.led && !follows))
    && (key in r'.led ==> r'.led[key] == if key in r.led then r.led[key] else if p.isr == [] then p.replicas else p.isr)
    && (key in r'.fetchers <==> follows)
    && (key in r'.fetchers ==> r'.fetchers[key] == p.leader)
  }

  lemma StartsRole(self: Self, r: Roles, topic: Bytes, p: Partition)
    requires Key(topic, p.id) !in r.fetchers
    ensures RoleIs(self, r, StartOne(self, r, topic, p), topic, p)
  {}

  lemma RoleMoves(self: Self, r: Roles, s: Roles, s': Roles, topic: Bytes, p: Partition)
    requires RoleIs(self, r, s, topic, p) && SameAt(s, s', Key(topic, p.id))
    ensures RoleIs(self, r, s', topic, p)
  {}

  /** Every entry of a record whose partitions are distinct gets its role. */
  lemma {:induction false} RolesAre(self: Self, r: Roles, topic: Bytes, ps: seq<Partition>, i: nat)
    requires i < |ps| && DistinctIds(ps) && Key(topic, ps[i].id) !in r.fetchers
    ensures RoleIs(self, r, StartAll(self, r, topic, ps), topic, ps[i])
  {
    hide Leads, Follows, RoleIs, StartOne;
    var n := |ps| - 1;
    var before, key := StartAll(self, r, topic, ps[..n]), Key(topic, ps[i].id);
    if i < n {
      RolesAre(self, r, topic, ps[..n], i);
      OneTouches(self, before, topic, ps[n], key);
      RoleMoves(self, r, before, StartAll(self, r, topic, ps), topic, ps[i]);
    } else {
      assert !Mentions(ps[..n], ps[n].id);
      UnmentionedStay(self, r, topic, ps[..n], key);
      StartsRole(self, before, topic, ps[n]);
      SameStart(self, r, before, StartAll(self, r, topic, ps), topic, ps[n]);
    }
  }

  lemma SameStart(self: Self, r: Roles, s: Roles, s': Roles, topic: Bytes, p: Partition)
    requires SameAt(r, s, Key(topic, p.id)) && RoleIs(self, s, s', topic, p)
    ensures RoleIs(self, r, s', topic, p)
  {}

  /** After a record with distinct partitions, each of them has its role. */
  lemma UpsertRoles(self: Self, n: Node, topic: Bytes, ps: seq<Partition>, i: nat)
    requires i < |ps| && DistinctIds(ps)
    ensures RoleIs(self, n.roles, Applied(self, n, TopicUpsert(topic, ps)).roles, topic, ps[i])
  {
    hide StartAll, StopAll, RoleIs;
    var stopped := StopAll(n.roles, topic, ps);
    StopAllIs(n.roles, topic, ps);
    assert Mentions(ps, ps[i].id);
    RolesAre(self, stopped, topic, ps, i);
    SameLed(self, n.roles, stopped, Applied(self, n, TopicUpsert(topic, ps)).roles, topic, ps[i]);
  }

  lemma SameLed(self: Self, r: Roles, s: Roles, s': Roles, topic: Bytes, p: Partition)
    requires s.led == r.led && RoleIs(self, s, s', topic, p)
    ensures RoleIs(self, r, s', topic, p)
  {}

  /** A partition of the registry that this broker leads is led here; one that it
      replicates is followed at its leader, if that is known; no other is followed. */
  ghost predicate RoleFits(self: Self, roles: Roles, topic: Bytes, p: Partition) {
    var key, replica := Key(topic, p.id), self.id in p.replicas;
    && (replica && p.leader == self.id ==> key in roles.led)
    && (key in roles.fetchers <==> replica && p.leader != self.id && p.leader in self.members)
    && (key in roles.fetchers ==> roles.fetchers[key] == p.leader)
  }

  ghost predicate TopicFits(self: Self, roles: Roles, topic: Bytes, ps: seq<Partition>) {
    forall i :: 0 <= i < |ps| ==> RoleFits(self, roles, topic, ps[i])
  }

  ghost predicate AllFit(self: Self, n: Node) {
    forall t :: t in n.registry ==> TopicFits(self, n.roles, t, n.registry[t])
  }

  /** A record with distinct partitions keeps every partition of the registry in its role. */
  lemma UpsertFits(self: Self, n: Node, topic: Bytes, ps: seq<Partition>)
    requires AllFit(self, n) && DistinctIds(ps)
    ensures AllFit(self, Applied(self, n, TopicUpsert(topic, ps)))
  {
    hide StartAll, StopAll, RoleIs, RoleFits, DistinctIds;
    var after := Applied(self, n, TopicUpsert(topic, ps));
    forall t | t in after.registry ensures TopicFits(self, after.roles, t, after.registry[t]) {
      if t == topic {
        forall i | 0 <= i < |ps| ensures RoleFits(self, after.roles, topic, ps[i]) {
          UpsertRoles(self, n, topic, ps, i);
          RoleFitsAfter(self, n.roles, after.roles, topic, ps[i]);
        }
      } else {
        var qs := n.registry[t];
        assert TopicFits(self, n.roles, t, qs);
        forall i | 0 <= i < |qs| ensures RoleFits(self, after.roles, t, qs[i]) {
          OtherStays(self, n, topic, ps, Key(t, qs[i].id));
          RoleFitsStill(self, n.roles, after.roles, t, qs[i]);
        }
      }
    }
  }

  lemma OtherStays(self: Self, n: Node, topic: Bytes, ps: seq<Partition>, key: Key)
    requires key.topic != topic
    ensures SameAt(n.roles, Applied(self, n, TopicUpsert(topic, ps)).roles, key)
  {
    hide StartAll, StopAll;
    StopAllIs(n.roles, topic, ps);
    UnmentionedStay(self, StopAll(n.roles, topic, ps), topic, ps, key);
  }

  lemma RoleFitsAfter(self: Self, r: Roles, r': Roles, topic: Bytes, p: Partition)
    requires RoleIs(self, r, r', topic, p)
    ensures RoleFits(self, r', topic, p)
  {}

  lemma RoleFitsStill(self: Self, r: Roles, r': Roles, topic: Bytes, p: Partition)
    requires RoleFits(self, r, topic, p) && SameAt(r, r', Key(topic, p.id))
    ensures RoleFits(self, r', topic, p)
  {}

  // ----- the replicas that a leader tracks -----

  /** The partition, if it is led here, is tracked on its in-sync set. */
  ghost predicate TracksIsr(self: Self, roles: Roles, topic: Bytes, p: Partition) {
    self.id in p.replicas && p.leader == self.id ==>
      Key(topic, p.id) in roles.led && roles.led[Key(topic, p.id)] == p.isr
  }

  /** After a record, the leader tracks the in-sync set of its partition exactly when it
      did not lead it before, or had tracked that set already. */
  lemma TracksIff(self: Self, n: Node, topic: Bytes, ps: seq<Partition>, i: nat)
    requires i < |ps| && DistinctIds(ps) && WellShaped(ps[i]) && ps[i].leader == self.id
    ensures TracksIsr(self, Applied(self, n, TopicUpsert(topic, ps)).roles, topic, ps[i]) <==>
            (Key(topic, ps[i].id) in n.roles.led ==> n.roles.led[Key(topic, ps[i].id)] == ps[i].isr)
  {
    hide Applied, DistinctIds;
    UpsertRoles(self, n, topic, ps, i);
    assert ps[i].isr != [] && self.id in ps[i].replicas;
  }

  /** A lead that begins with a record opens an epoch of its partition: the leader's
      state starts on the registry's in-sync set. */
  lemma LeadOpensEpoch(self: Self, n: Node, topic: Bytes, ps: seq<Partition>, i: nat, lagTimeout: int, now: int)
    requires i < |ps| && DistinctIds(ps) && WellShaped(ps[i]) && ps[i].leader == self.id
    requires Key(topic, ps[i].id) !in n.roles.led
    ensures var led := Applied(self, n, TopicUpsert(topic, ps)).roles.led;
            && Key(topic, ps[i].id) in led
            && Durability.EpochOf(Replication.Begin(led[Key(topic, ps[i].id)], self.id, lagTimeout, now), ps[i])
  {
    hide Applied, DistinctIds, Durability.EpochOf, Replication.Begin;
    TracksIff(self, n, topic, ps, i);
    ShapedIsReplica(ps[i]);
    Durability.FirstEpoch(ps[i], lagTimeout, now);
  }

  /** The same after a failover: the state of the heir is the one its reign opens with. */
  lemma LeadOpensReign(self: Self, n: Node, topic: Bytes, ps: seq<Partition>, i: nat, c: Replication.Cluster,
                       p: Partition, reign: Durability.Reign)
    requires i < |ps| && DistinctIds(ps) && WellShaped(ps[i]) && ps[i].leader == self.id
    requires ps[i] == Durability.Heir(p, reign) && Key(topic, ps[i].id) !in n.roles.led
    ensures var led := Applied(self, n, TopicUpsert(topic, ps)).roles.led;
            && Key(topic, ps[i].id) in led
            && Durability.Opening(c, p, reign).state ==
               Watermark.Start(led[Key(topic, ps[i].id)], self.id, reign.lagTimeout, reign.now)
  {
    hide Applied, DistinctIds, Durability.Heir, Watermark.Start;
    TracksIff(self, n, topic, ps, i);
    ShapedIsReplica(ps[i]);
  }

  lemma ShapedIsReplica(p: Partition)
    requires WellShaped(p)
    ensures p.leader in p.replicas
  {}

  /** A topic that is deleted and created again with more replicas: its leader still
      tracks the old ones. */
  lemma RecreatedTracksOld(topic: Bytes)
    ensures var was, now := Partition(0, 1, [1, 2], [1, 2]), Partition(0, 1, [1, 2, 3], [1, 2, 3]);
            var self := Self(1, {1, 2, 3});
            var n := Run(self, [TopicUpsert(topic, [was]), TopicDelete(topic), TopicUpsert(topic, [now])]);
            !TracksIsr(self, n.roles, topic, now)
  {
    hide StartAll, StopAll;
    var was, now := Partition(0, 1, [1, 2], [1, 2]), Partition(0, 1, [1, 2, 3], [1, 2, 3]);
    var self, rs := Self(1, {1, 2, 3}), [TopicUpsert(topic, [was]), TopicDelete(topic), TopicUpsert(topic, [now])];
    assert rs[..2][..1] == rs[..1] && rs[..1][..0] == [];
    var first := Applied(self, Run(self, []), rs[0]);
    UpsertRoles(self, Run(self, []), topic, [was], 0);
    assert first.roles.led[Key(topic, 0)] == [1, 2];
    assert Run(self, rs[..1]) == first && Run(self, rs[..2]).roles == first.roles;
    TracksIff(self, Run(self, rs[..2]), topic, [now], 0);
  }

  // ----- runs -----

  ghost function Run(self: Self, records: seq<Record>): Node {
    if records == [] then Node(map[], Roles(map[], map[]))
    else Applied(self, Run(self, records[..|records| - 1]), records[|records| - 1])
  }

  ghost predicate AllConsistent(self: Self, records: seq<Record>) {
    forall i :: 0 <= i < |records| && records[i].TopicUpsert? ==> Consistent(self, records[i].partitions)
  }

  /** Over any records: never led and followed at once; and while the records are
      consistent, every fetcher asks its partition's current leader. */
  lemma {:induction false} RunFollows(self: Self, records: seq<Record>)
    ensures Exclusive(Run(self, records).roles)
    ensures AllConsistent(self, records) ==> Agreed(Run(self, records))
  {
    hide Consistent, StartAll, StopAll, Exclusive;
    if records == [] { NobodyFollows(); }
    else {
      var n := |records| - 1;
      var before := Run(self, records[..n]);
      RunFollows(self, records[..n]);
      match records[n] {
        case TopicUpsert(topic, ps) =>
          StoppedIsExclusive(before.roles, topic, ps);
          StartKeepsExclusive(self, StopAll(before.roles, topic, ps), topic, ps);
          if AllConsistent(self, records) { UpsertAgreesIff(self, before, topic, ps); }
        case TopicDelete(_) =>
      }
    }
  }

  ghost predicate AllDistinct(records: seq<Record>) {
    forall i :: 0 <= i < |records| && records[i].TopicUpsert? ==> DistinctIds(records[i].partitions)
  }

  /** Over any records with distinct partitions: everything in the registry is led or
      followed as it should be. */
  lemma {:induction false} RunFits(self: Self, records: seq<Record>)
    requires AllDistinct(records)
    ensures AllFit(self, Run(self, records))
  {
    hide StartAll, StopAll, TopicFits, DistinctIds;
    if records != [] {
      var n := |records| - 1;
      RunFits(self, records[..n]);
      match records[n] {
        case TopicUpsert(topic, ps) => UpsertFits(self, Run(self, records[..n]), topic, ps);
        case TopicDelete(_) =>
      }
    }
  }

  ghost predicate TopicTracked(self: Self, roles: Roles, topic: Bytes, ps: seq<Partition>) {
    forall i :: 0 <= i < |ps| ==> TracksIsr(self, roles, topic, ps[i])
  }

  /** Everything in the registry that is led here is tracked on its in-sync set. */
  ghost predicate AllTracked(self: Self, n: Node) {
    forall t :: t in n.registry ==> TopicTracked(self, n.roles, t, n.registry[t])
  }

  /** The record gives a partition that is led here already no other in-sync set. */
  ghost predicate SameIsr(self: Self, n: Node, record: Record) {
    record.TopicUpsert? ==> forall i :: 0 <= i < |record.partitions| ==>
      SameIsrAt(self, n.roles, record.topic, record.partitions[i])
  }

  ghost predicate SameIsrAt(self: Self, roles: Roles, topic: Bytes, p: Partition) {
    p.leader == self.id && Key(topic, p.id) in roles.led ==> roles.led[Key(topic, p.id)] == p.isr
  }

  ghost predicate GoodUpsert(record: Record) {
    record.TopicUpsert? ==>
      && DistinctIds(record.partitions)
      && forall i :: 0 <= i < |record.partitions| ==> WellShaped(record.partitions[i])
  }

  lemma StepTracksIff(self: Self, n: Node, record: Record)
    requires AllTracked(self, n) && GoodUpsert(record)
    ensures AllTracked(self, Applied(self, n, record)) <==> SameIsr(self, n, record)
  {
    hide StartAll, StopAll, TracksIsr, SameIsrAt, DistinctIds, WellShaped;
    if record.TopicUpsert? {
      var topic, ps := record.topic, record.partitions;
      var after := Applied(self, n, record);
      forall i | 0 <= i < |ps|
        ensures TracksIsr(self, after.roles, topic, ps[i]) <==> SameIsrAt(self, n.roles, topic, ps[i])
      {
        if ps[i].leader == self.id {
          TracksIff(self, n, topic, ps, i);
          LedHere(self, n.roles, after.roles, topic, ps[i]);
        } else { NotLedHere(self, n.roles, after.roles, topic, ps[i]); }
      }
      forall t | t in after.registry && t != topic ensures TopicTracked(self, after.roles, t, after.registry[t]) {
        var qs := n.registry[t];
        assert TopicTracked(self, n.roles, t, qs);
        forall i | 0 <= i < |qs| ensures TracksIsr(self, after.roles, t, qs[i]) {
          OtherStays(self, n, topic, ps, Key(t, qs[i].id));
          TracksStill(self, n.roles, after.roles, t, qs[i]);
        }
      }
      assert topic in after.registry && after.registry[topic] == ps;
    }
  }

  lemma LedHere(self: Self, r: Roles, r': Roles, topic: Bytes, p: Partition)
    requires p.leader == self.id
    requires TracksIsr(self, r', topic, p) <==> (Key(topic, p.id) in r.led ==> r.led[Key(topic, p.id)] == p.isr)
    ensures TracksIsr(self, r', topic, p) <==> SameIsrAt(self, r, topic, p)
  {}

  lemma NotLedHere(self: Self, r: Roles, r': Roles, topic: Bytes, p: Partition)
    requires p.leader != self.id
    ensures TracksIsr(self, r', topic, p) && SameIsrAt(self, r, topic, p)
  {}

  lemma TracksStill(self: Self, r: Roles, r': Roles, topic: Bytes, p: Partition)
    requires TracksIsr(self, r, topic, p) && SameAt(r, r', Key(topic, p.id))
    ensures TracksIsr(self, r', topic, p)
  {}

  ghost predicate TrackedThroughout(self: Self, records: seq<Record>) {
    AllTracked(self, Run(self, records)) && (records == [] || TrackedThroughout(self, records[..|records| - 1]))
  }

  ghost predicate AllSameIsr(self: Self, records: seq<Record>) {
    records == [] ||
    var n := |records| - 1;
    AllSameIsr(self, records[..n]) && SameIsr(self, Run(self, records[..n]), records[n])
  }

  /** Over any well-shaped records: whatever is led here is tracked on the registry's
      in-sync set at each moment if and only if no record gives a partition another
      in-sync set while it is led here. */
  lemma {:induction false} RunTracksIff(self: Self, records: seq<Record>)
    requires forall i :: 0 <= i < |records| ==> GoodUpsert(records[i])
    ensures TrackedThroughout(self, records) <==> AllSameIsr(self, records)
  {
    hide Applied, AllTracked, SameIsr, GoodUpsert;
    if records == [] { NothingLed(self); }
    else {
      var n := |records| - 1;
      RunTracksIff(self, records[..n]);
      if TrackedThroughout(self, records[..n]) { StepTracksIff(self, Run(self, records[..n]), records[n]); }
    }
  }

  lemma NothingLed(self: Self)
    ensures AllTracked(self, Run(self, []))
  {}

  lemma NobodyFollows()
    ensures Exclusive(Roles(map[], map[]))
  {}

  lemma StoppedIsExclusive(r: Roles, topic: Bytes, ps: seq<Partition>)
    requires Exclusive(r)
    ensures Exclusive(StopAll(r, topic, ps))
  {
    StopAllIs(r, topic, ps);
  }

  /** The records of a metadata log that decodes throughout. */
  ghost function RecordsIn(log: seq<Bytes>): (rs: seq<Record>)
    requires GoodLog(log)
    ensures |rs| == |log|
  {
    if log == [] then []
    else
      assert GoodPayload(log[|log| - 1]);
      RecordsIn(log[..|log| - 1]) + [ParseRecord(log[|log| - 1]).value]
  }

  lemma {:induction false} LogFollows(self: Self, log: seq<Bytes>)
    requires GoodLog(log)
    ensures AllConsistent(self, RecordsIn(log)) && AllDistinct(RecordsIn(log))
    ensures Run(self, RecordsIn(log)).registry == Replay(log)
  {
    hide ParseRecord, StartAll, StopAll, Consistent, DistinctIds, GoodPartitions;
    if log != [] {
      var n := |log| - 1;
      assert GoodPayload(log[n]);
      var init, r := RecordsIn(log[..n]), ParseRecord(log[n]).value;
      LogFollows(self, log[..n]);
      assert (init + [r])[..n] == init;
      if r.TopicUpsert? { GoodIsConsistent(self, r.partitions); }
    }
  }

  lemma GoodIsConsistent(self: Self, ps: seq<Partition>)
    requires GoodPartitions(ps)
    ensures Consistent(self, ps) && DistinctIds(ps)
  {
    hide Prevails;
  }

  /** Any broker of any cluster run: what it leads and follows comes from its own
      log, and every fetcher asks the leader that its registry names. */
  lemma ClusterFollows(controller: int, members: seq<int>, ops: seq<Op>, broker: int, self: Self)
    requires controller in members && GoodMembers(members) && AllSent(ops)
    requires AllKeepEnough(Fresh(controller, members), ops)
    requires broker in Metadata.Run(Fresh(controller, members), ops).brokers
    ensures var b := Metadata.Run(Fresh(controller, members), ops).brokers[broker];
            GoodLog(b.log) && var n := Run(self, RecordsIn(b.log));
            n.registry == b.registry && Exclusive(n.roles) && Agreed(n) && AllFit(self, n)
  {
    hide GoodPayload, Run, RecordsIn, Replay;
    RunKeeps(controller, members, ops);
    var c := Metadata.Run(Fresh(controller, members), ops);
    var b := c.brokers[broker];
    assert Agrees(b, c.brokers[c.controller].log);
    LogFollows(self, b.log);
    RunFollows(self, RecordsIn(b.log));
    RunFits(self, RecordsIn(b.log));
  }

  /** Two entries for one partition: broker 1 asks 2 although the last entry says 3. */
  lemma RepeatedIdDisagrees(topic: Bytes)
    ensures var ps := [Partition(0, 2, [1, 2], [2]), Partition(0, 3, [1, 3], [3])];
            var n := Run(Self(1, {1, 2, 3}), []);
            Agreed(n) && !Agreed(Applied(Self(1, {1, 2, 3}), n, TopicUpsert(topic, ps)))
  {
    hide StartAll, StopAll;
    var ps := [Partition(0, 2, [1, 2], [2]), Partition(0, 3, [1, 3], [3])];
    var self := Self(1, {1, 2, 3});
    UpsertAgreesIff(self, Run(self, []), topic, ps);
    assert Follows(self, ps[0]) && !Leads(self, ps[1]);
    assert Prevails(self, ps, 0);
    assert ps[0].id == ps[1].id && ps[1].leader != ps[0].leader;
  }

  // ----- the objects -----

  class Manager {
    const selfID: int
    const members: set<int>
    var fetchers: map<Key, int>
    var led: map<Key, seq<int>>

    ghost function View(): Roles
      reads this
    {
      Roles(fetchers, led)
    }

    constructor (selfID: int, members: set<int>)
      ensures View() == Roles(map[], map[]) && this.selfID == selfID && this.members == members
    {
      this.selfID, this.members, fetchers, led := selfID, members, map[], map[];
    }

    method StopFollowing(topic: Bytes, partition: int)
      modifies this`fetchers
      ensures View() == Stop(old(View()), Key(topic, partition))
    {
      fetchers := fetchers - {Key(topic, partition)};
    }

    method StartFollowing(topic: Bytes, partitions: seq<Partition>)
      modifies this`fetchers, this`led
      ensures View() == StartAll(Self(selfID, members), old(View()), topic, partitions)
    {
      for i := 0 to |partitions|
        invariant View() == StartAll(Self(selfID, members), old(View()), topic, partitions[..i])
      {
        assert partitions[..i + 1][..i] == partitions[..i];
        var p := partitions[i];
        if |p.replicas| == 0 || selfID !in p.replicas { continue; }
        var key := Key(topic, p.id);
        if p.leader == selfID {
          StopFollowing(topic, p.id);
          if key !in led {
            var replicas := p.isr;
            if |replicas| == 0 { replicas := p.replicas; }
            led := led[key := replicas];
          }
          continue;
        }
        if p.leader !in members { continue; }
        if key in fetchers { continue; }
        led := led - {key};
        fetchers := fetchers[key := p.leader];
      }
      assert partitions[..|partitions|] == partitions;
    }

    /** applyTopic on the replication side: stop each partition's fetcher, then follow or lead anew. */
    method ApplyTopic(topic: Bytes, partitions: seq<Partition>)
      modifies this`fetchers, this`led
      ensures View() == StartAll(Self(selfID, members), StopAll(old(View()), topic, partitions), topic, partitions)
    {
      for i := 0 to |partitions|
        invariant View() == StopAll(old(View()), topic, partitions[..i])
      {
        assert partitions[..i + 1][..i] == partitions[..i];
        StopFollowing(topic, partitions[i].id);
      }
      assert partitions[..|partitions|] == partitions;
      StartFollowing(topic, partitions);
    }
  }
}
