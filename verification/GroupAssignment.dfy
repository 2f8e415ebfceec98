/** From the leader's plan to what every member decodes: each partition has one owner. */
module GroupAssignment {
  import opened Lists
  import opened Wire
  import opened Assignor
  import opened AssignmentCodec
  import opened GroupModel

  /** The leader sends every member its part of the plan, encoded. */
  ghost predicate Sends(h: Group, sent: map<Bytes, Bytes>, plan: Assignments) {
    forall m :: m in h.members ==> m in sent && Fits(Get(plan, m)) && sent[m] == Blob(Get(plan, m))
  }

  ghost predicate Owns(plan: Assignments, t: Bytes, p: int, m: Bytes) { Has(Get(plan, m), t, p) }

  ghost predicate DecodesTo(b: Bytes, a: seq<TopicPartitions>) { ParseBlob(b).Ok? && ParseBlob(b).value == a }

  /** Whatever a member receives decodes to its part of the plan. */
  lemma RepliesDecode(h: Group, sent: map<Bytes, Bytes>, plan: Assignments, ops: seq<Op>, op: Op, b: Bytes)
    requires WellFormed(h) && h.phase == Completing && Silent(h) && Sends(h, sent, plan)
    requires Delivered(h, sent, ops, op, b)
    ensures (op.SyncOp? || op.TakeSync?) && op.id in h.members && DecodesTo(b, Get(plan, op.id))
  {
    hide ParseBlob, Blob, Fits, Get, WellFormed;
    RepliesAreSent(h, sent, ops, op);
    AssignmentRoundTrip(Get(plan, op.id));
  }

  /** In this generation partition p of topic t has one owner: whatever is received
      gives the partition to the owner and to nobody else; once the leader has
      synced, the owner's Sync is answered with it; and a Sync of the owner that
      parked before is woken with it. */
  ghost predicate OwnedBy(h: Group, sent: map<Bytes, Bytes>, t: Bytes, p: int, owner: Bytes)
    requires WellFormed(h)
  {
    && (forall ops, op, b :: Delivered(h, sent, ops, op, b) ==>
          (op.SyncOp? || op.TakeSync?) && Grants(b, t, p, op.id == owner))
    && (forall ops, i, op :: OwnerAsks(h, sent, ops, i, op, owner) ==>
          Reply(Run(h, ops), op).Some? && Grants(Reply(Run(h, ops), op).value, t, p, true))
    && (forall ops, i :: OwnerParked(h, sent, ops, i, owner) ==>
          var reply := Reply(Run(h, ops), TakeSync(owner));
          reply.Some? && Grants(reply.value, t, p, true))
  }

  /** The blob decodes, and it holds the partition or does not, as said. */
  ghost predicate Grants(b: Bytes, t: Bytes, p: int, yes: bool) {
    ParseBlob(b).Ok? && (Has(ParseBlob(b).value, t, p) <==> yes)
  }

  /** A quiet run in which the leader has synced, and then the owner's own Sync. */
  ghost predicate OwnerAsks(h: Group, sent: map<Bytes, Bytes>, ops: seq<Op>, i: nat, op: Op, owner: Bytes)
    requires WellFormed(h)
  {
    && AllQuiet(ops + [op], h.leader, sent) && AllNamed(ops) && i < |ops| && SyncedAt(h, ops, i)
    && op.SyncOp? && op.id == owner && op.id in h.members && op.generation == Run(h, ops).generation
  }

  /** A quiet run in which the leader has synced, and nothing was received for the owner since. */
  ghost predicate OwnerParked(h: Group, sent: map<Bytes, Bytes>, ops: seq<Op>, i: nat, owner: Bytes)
    requires WellFormed(h)
  {
    && AllQuiet(ops, h.leader, sent) && AllNamed(ops) && i < |ops| && owner in h.members && owner != h.leader
    && LeaderSyncs(Run(h, ops[..i]), ops[i]) && NotTaken(ops, i, owner)
  }

  lemma PlanIsDelivered(h: Group, sent: map<Bytes, Bytes>, plan: Assignments, t: Bytes, p: int, owner: Bytes)
    requires WellFormed(h) && h.phase == Completing && Silent(h) && Sends(h, sent, plan)
    requires forall m :: m in h.members ==> (Owns(plan, t, p, m) <==> m == owner)
    ensures OwnedBy(h, sent, t, p, owner)
  {
    hide ParseBlob, Has, Delivered, WellFormed, Sends, AllQuiet, SyncedAt, Run, Reply, Silent;
    forall ops, op, b | Delivered(h, sent, ops, op, b)
      ensures (op.SyncOp? || op.TakeSync?) && Grants(b, t, p, op.id == owner)
    {
      RepliesDecode(h, sent, plan, ops, op, b);
    }
    forall ops, i, op | OwnerAsks(h, sent, ops, i, op, owner)
      ensures Reply(Run(h, ops), op).Some? && Grants(Reply(Run(h, ops), op).value, t, p, true)
    {
      OwnerHears(h, sent, plan, ops, i, op, owner);
      RepliesDecode(h, sent, plan, ops, op, Reply(Run(h, ops), op).value);
    }
    forall ops, i | OwnerParked(h, sent, ops, i, owner)
      ensures var reply := Reply(Run(h, ops), TakeSync(owner)); reply.Some? && Grants(reply.value, t, p, true)
    {
      OwnerWakes(h, sent, plan, ops, i, owner);
      RepliesDecode(h, sent, plan, ops, TakeSync(owner), sent[owner]);
    }
  }

  lemma OwnerWakes(h: Group, sent: map<Bytes, Bytes>, plan: Assignments, ops: seq<Op>, i: nat, owner: Bytes)
    requires WellFormed(h) && h.phase == Completing && Silent(h) && Sends(h, sent, plan)
    requires OwnerParked(h, sent, ops, i, owner)
    ensures AllNamed(ops) && owner in sent && Reply(Run(h, ops), TakeSync(owner)) == Some(sent[owner])
    ensures Delivered(h, sent, ops, TakeSync(owner), sent[owner])
  {
    hide WellFormed, Blob, Fits, Get, Run, Reply, LeaderSyncs, NotTaken;
    ParkedAreWoken(h, sent, ops, i, owner);
  }

  lemma OwnerHears(h: Group, sent: map<Bytes, Bytes>, plan: Assignments, ops: seq<Op>, i: nat, op: Op, owner: Bytes)
    requires WellFormed(h) && h.phase == Completing && Silent(h) && Sends(h, sent, plan)
    requires OwnerAsks(h, sent, ops, i, op, owner)
    ensures op.id == owner && AllNamed(ops) && Reply(Run(h, ops), op).Some?
    ensures Delivered(h, sent, ops, op, Reply(Run(h, ops), op).value)
  {
    hide WellFormed, Blob, Fits, Get, Run, Reply, AllQuiet, SyncedAt;
    EveryoneIsServed(h, sent, ops, i, op);
  }

  /** Sizes that the blob's fixed-width fields can carry. */
  ghost predicate Carried(topics: seq<Bytes>, counts: Counts)
    requires forall t :: t in topics ==> t in counts
  {
    |topics| < TwoTo31 && forall t :: t in topics ==> |t| <= 32767 && counts[t] < TwoTo31
  }

  lemma ShareFits(topic: Bytes, members: seq<Bytes>, n: nat, m: Bytes)
    requires |topic| <= 32767 && n < TwoTo31
    requires Distinct(members)
    ensures var a := TopicShare(topic, members, n, m); |a| <= 1 && forall i :: 0 <= i < |a| ==> EntryFits(a[i])
  {
    hide Start, EntryFits, Turns, Turn, Interval;
    if m in members {
      var i :| 0 <= i < |members| && members[i] == m;
      OneTurn(topic, members, n, i, |members|);
      TurnFits(topic, n, |members|, i);
    } else {
      NoTurn(topic, members, n, m, |members|);
    }
  }

  lemma TurnFits(topic: Bytes, n: nat, k: nat, i: nat)
    requires |topic| <= 32767 && n < TwoTo31 && i < k
    ensures var a := Turn(topic, n, k, i); forall x :: 0 <= x < |a| ==> EntryFits(a[x])
  {
    hide Start, EntryFits;
    StartStep(n, k, 0);
    StartGrows(n, k, 0, i);
    StartGrows(n, k, i, i + 1);
    StartGrows(n, k, i + 1, k);
    var a := Turn(topic, n, k, i);
    forall x | 0 <= x < |a| ensures EntryFits(a[x]) { EntriesFit(a[x], n); }
  }

  lemma EntriesFit(x: TopicPartitions, n: nat)
    requires |x.topic| <= 32767 && n < TwoTo31 && |x.partitions| <= n && forall p :: p in x.partitions ==> 0 <= p < n
    ensures EntryFits(x)
  {
    forall i | 0 <= i < |x.partitions| ensures IsInt32(x.partitions[i]) { assert x.partitions[i] in x.partitions; }
  }

  lemma {:induction false} RangeFits(topics: seq<Bytes>, subs: seq<Subscription>, counts: Counts, m: Bytes)
    requires Distinct(Members(subs)) && forall t :: t in topics ==> t in counts && |t| <= 32767 && counts[t] < TwoTo31
    ensures var a := RangeFor(topics, subs, counts, m); |a| <= |topics| && forall i :: 0 <= i < |a| ==> EntryFits(a[i])
  {
    hide TopicShare, EntryFits, Sort, Subscribers, Members;
    if topics != [] {
      var n := |topics| - 1;
      var t := topics[n];
      SubscribersAre(subs, t);
      Permuted(Subscribers(subs, t), Sort(Subscribers(subs, t)));
      RangeFits(topics[..n], subs, counts, m);
      ShareFits(t, Sort(Subscribers(subs, t)), counts[t], m);
    }
  }

  ghost predicate Small(flat: seq<(Bytes, int)>) {
    forall i :: 0 <= i < |flat| ==> |flat[i].0| <= 32767 && IsInt32(flat[i].1)
  }

  ghost predicate FitsIn(a: seq<TopicPartitions>, n: nat) {
    |a| <= n && forall i :: 0 <= i < |a| ==>
      && |a[i].topic| <= 32767 && |a[i].partitions| <= n
      && forall j :: 0 <= j < |a[i].partitions| ==> IsInt32(a[i].partitions[j])
  }

  lemma {:induction false} DealtFits(m: Bytes, members: seq<Bytes>, flat: seq<(Bytes, int)>)
    requires members != [] && Small(flat)
    ensures FitsIn(Dealt(m, members, flat), |flat|)
  {
    if flat != [] { DealtFits(m, members, flat[..|flat| - 1]); }
  }

  lemma {:induction false} FlatIsSmall(topics: seq<Bytes>, counts: Counts)
    requires forall t :: t in topics ==> t in counts && |t| <= 32767 && counts[t] < TwoTo31
    ensures Small(Flat(topics, counts))
  {
    if topics != [] { FlatIsSmall(topics[..|topics| - 1], counts); }
  }

  // ----- end to end -----

  /** A run before a generation opens: the leader's Sync waits for the join to
      complete, and every member that is left has rejoined. */
  ghost predicate Rejoined(g: Group, ops: seq<Op>) {
    && WellFormed(g) && AllNamed(ops) && LeaderWaits(g, ops)
    && Run(g, ops).members != map[] && AllRejoined(Run(g, ops), ops)
  }

  ghost function NextGeneration(g: Group, ops: seq<Op>): (h: Group)
    requires Rejoined(g, ops)
    ensures WellFormed(h)
  {
    RebalanceIsSilent(g, ops);
    Run(g, ops + [CompleteOp])
  }

  /** The leader encodes the plan for exactly the members of the generation. */
  ghost predicate LeaderSends(h: Group, sent: map<Bytes, Bytes>, plan: Assignments, members: seq<Bytes>) {
    && (forall m :: m in h.members <==> m in members)
    && (forall m :: m in h.members ==> m in sent && sent[m] == Blob(Get(plan, m)))
  }

  ghost predicate Planned(plan: Assignments, t: Bytes, p: int, owner: Bytes) {
    (forall m :: Fits(Get(plan, m))) && forall m :: Owns(plan, t, p, m) <==> m == owner
  }

  lemma PlanReaches(g: Group, window: seq<Op>, sent: map<Bytes, Bytes>, plan: Assignments, members: seq<Bytes>,
                    t: Bytes, p: int, owner: Bytes)
    requires Rejoined(g, window) && LeaderSends(NextGeneration(g, window), sent, plan, members) &&
             Planned(plan, t, p, owner)
    ensures OwnedBy(NextGeneration(g, window), sent, t, p, owner)
  {
    hide Rejoined, Owns, Blob, OwnedBy, WellFormed, Fits, Get, Silent;
    Opening(g, window);
    PlanIsDelivered(NextGeneration(g, window), sent, plan, t, p, owner);
  }

  lemma Opening(g: Group, window: seq<Op>)
    requires Rejoined(g, window)
    ensures NextGeneration(g, window).phase == Completing && Silent(NextGeneration(g, window))
  {
    hide WellFormed, AllRejoined, LeaderWaits;
    RebalanceIsSilent(g, window);
  }

  ghost predicate IsRangePlan(plan: Assignments, topics: seq<Bytes>, subs: seq<Subscription>, counts: Counts) {
    RangePlan(plan, topics, subs, counts) && Carried(topics, counts)
  }

  lemma SubscriberIsMember(subs: seq<Subscription>, t: Bytes, m: Bytes)
    requires m in Subscribers(subs, t)
    ensures m in Members(subs)
  {
    SubscribersAre(subs, t);
    var i :| 0 <= i < |subs| && subs[i].member == m && t in subs[i].topics;
    assert Members(subs)[i] == m;
  }

  lemma RangePlanned(plan: Assignments, topics: seq<Bytes>, subs: seq<Subscription>, counts: Counts, t: Bytes, p: nat)
    returns (owner: Bytes)
    requires Distinct(Members(subs)) && IsRangePlan(plan, topics, subs, counts)
    requires t in counts && p < counts[t] && Subscribers(subs, t) != []
    ensures owner in Subscribers(subs, t) && owner in Members(subs) && Planned(plan, t, p, owner)
  {
    hide RangeFor, Has, EntryFits, InOrder, Flat, Get, Members, Subscribers;
    owner := RangeExact(topics, subs, counts, t, p);
    SubscriberIsMember(subs, t, owner);
    forall m ensures Fits(Get(plan, m)) { RangeFits(topics, subs, counts, m); }
  }

  /** Range, end to end: each partition of a subscribed topic reaches exactly one member, a subscriber. */
  lemma RangeDelivers(g: Group, window: seq<Op>, sent: map<Bytes, Bytes>, plan: Assignments,
                      topics: seq<Bytes>, subs: seq<Subscription>, counts: Counts, t: Bytes, p: nat)
    returns (owner: Bytes)
    requires Rejoined(g, window) && Distinct(Members(subs)) && IsRangePlan(plan, topics, subs, counts)
    requires LeaderSends(NextGeneration(g, window), sent, plan, Members(subs))
    requires t in counts && p < counts[t] && Subscribers(subs, t) != []
    ensures owner in Subscribers(subs, t) && owner in NextGeneration(g, window).members
    ensures OwnedBy(NextGeneration(g, window), sent, t, p, owner)
  {
    hide Rejoined, IsRangePlan, OwnedBy, WellFormed, Planned, NextGeneration, Blob, Distinct, Members, Subscribers;
    owner := RangePlanned(plan, topics, subs, counts, t, p);
    PlanReaches(g, window, sent, plan, Members(subs), t, p, owner);
  }

  ghost predicate IsRoundRobinPlan(plan: Assignments, topics: seq<Bytes>, members: seq<Bytes>, counts: Counts) {
    && RoundRobinPlan(plan, topics, members, counts) && members != []
    && Carried(topics, counts) && |Flat(topics, counts)| < TwoTo31
  }

  lemma RoundRobinPlanned(plan: Assignments, topics: seq<Bytes>, members: seq<Bytes>, counts: Counts, t: Bytes, p: nat)
    returns (owner: Bytes)
    requires IsRoundRobinPlan(plan, topics, members, counts)
    requires t in counts && p < counts[t]
    ensures owner in members && Planned(plan, t, p, owner)
  {
    hide Dealt, Has, InOrder, Flat, Get, EntryFits;
    owner := RoundRobinExact(topics, counts, members, t, p);
    FlatIsSmall(topics, counts);
    forall m
      ensures Fits(Get(plan, m)) && (Owns(plan, t, p, m) <==> m == owner)
    {
      assert Get(plan, m) == Dealt(m, members, Flat(topics, counts));
      DealtFits(m, members, Flat(topics, counts));
      FitsWithin(Get(plan, m), |Flat(topics, counts)|);
    }
  }

  lemma FitsWithin(a: seq<TopicPartitions>, n: nat)
    requires FitsIn(a, n) && n < TwoTo31
    ensures Fits(a)
  {}

  /** RoundRobin, end to end: each partition reaches exactly one member. */
  lemma RoundRobinDelivers(g: Group, window: seq<Op>, sent: map<Bytes, Bytes>, plan: Assignments,
                           topics: seq<Bytes>, members: seq<Bytes>, counts: Counts, t: Bytes, p: nat)
    returns (owner: Bytes)
    requires Rejoined(g, window) && IsRoundRobinPlan(plan, topics, members, counts)
    requires LeaderSends(NextGeneration(g, window), sent, plan, members)
    requires t in counts && p < counts[t]
    ensures owner in NextGeneration(g, window).members
    ensures OwnedBy(NextGeneration(g, window), sent, t, p, owner)
  {
    hide Rejoined, IsRoundRobinPlan, OwnedBy, WellFormed, Planned, NextGeneration, Blob, Distinct;
    owner := RoundRobinPlanned(plan, topics, members, counts, t, p);
    PlanReaches(g, window, sent, plan, members, t, p, owner);
  }

  /** Such generations happen: one member joins an unused group. */
  lemma RejoinHappens(id: Bytes)
    requires id != []
    ensures var window := [JoinOp(id, 0, [])];
            Rejoined(Fresh, window) && NextGeneration(Fresh, window).members.Keys == {id}
  {
    var window := [JoinOp(id, 0, [])];
    FreshIsGood();
    assert AllNamed(window) && window[..0] == [];
    assert Run(Fresh, window[..0]) == Fresh;
    assert Run(Fresh, window) == Join(Fresh, id, 0, []);
    assert Run(Fresh, window).members.Keys == {id};
    assert id in Run(Fresh, window).members;
    assert window[0].JoinOp? && Joins(window, id);
    RebalanceIsSilent(Fresh, window);
  }
}
