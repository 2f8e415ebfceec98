/**
 Topic metadata: where the replicas of a new topic go, and how the controller
 replaces dead partition leaders.
 */
module Topics {
  import opened Wire
  import opened Lists

  datatype Partition = Partition(id: int, leader: int, replicas: seq<int>, isr: seq<int>)

  // ----- replica assignment -----

  function Slot(p: nat, r: nat, n: nat): (k: nat)
    requires n > 0
    ensures k < n
  {
    (p % n + r) % n
  }

  /** Partition p's replicas: rf consecutive brokers from index p % N on, wrapping. */
  function ReplicasOf(p: nat, brokers: seq<int>, rf: nat): (rs: seq<int>)
    requires brokers != []
    ensures |rs| == rf
  {
    seq(rf, r requires 0 <= r < rf => brokers[Slot(p, r, |brokers|)])
  }

  method AssignReplicas(count: int, brokers: seq<int>, rf: int) returns (replicas: seq<seq<int>>)
    ensures count <= 0 || brokers == [] || rf <= 0 ==> replicas == []
    ensures count > 0 && brokers != [] && rf > 0 ==>
              |replicas| == count && forall p :: 0 <= p < count ==> replicas[p] == ReplicasOf(p, brokers, rf)
  {
    replicas := [];
    if count <= 0 || brokers == [] || rf <= 0 { return; }
    for p := 0 to count
      invariant |replicas| == p && forall q :: 0 <= q < p ==> replicas[q] == ReplicasOf(q, brokers, rf)
    {
      var start, rs := p % |brokers|, [];
      for r := 0 to rf
        invariant rs == ReplicasOf(p, brokers, rf)[..r]
      {
        rs := rs + [brokers[(start + r) % |brokers|]];
      }
      replicas := replicas + [rs];
    }
  }

  lemma ModSame(a: nat, b: nat, n: nat)
    requires a < b < a + n
    ensures a % n != b % n
  {
    if a % n == b % n {
      assert b - a == n * (b / n - a / n);
      if b / n - a / n >= 1 { MulGrows(n, b / n - a / n); } else { MulGrows(n, a / n - b / n); }
    }
  }

  lemma MulGrows(n: nat, k: int)
    requires k >= 0 || n == 0
    ensures k >= 1 ==> n * k >= n
    ensures k == 0 ==> n * k == 0
  {}

  /** Distinct brokers give distinct replicas as long as rf does not exceed them. */
  lemma ReplicasDistinct(p: nat, brokers: seq<int>, rf: nat)
    requires brokers != [] && Distinct(brokers) && rf <= |brokers|
    ensures Distinct(ReplicasOf(p, brokers, rf))
    ensures forall b :: b in ReplicasOf(p, brokers, rf) ==> b in brokers
  {
    hide Slot;
    var n, rs := |brokers|, ReplicasOf(p, brokers, rf);
    forall i, j | 0 <= i < j < rf
      ensures rs[i] != rs[j]
    {
      SlotsDiffer(p, i, j, n);
    }
  }

  lemma SlotsDiffer(p: nat, i: nat, j: nat, n: nat)
    requires i < j < n
    ensures Slot(p, i, n) != Slot(p, j, n)
  {
    ModSame(p % n + i, p % n + j, n);
  }

  /** How many of the first `count` partitions start at broker index k. */
  function LedBy(k: nat, count: nat, n: nat): nat
    requires n > 0
  {
    if count == 0 then 0 else LedBy(k, count - 1, n) + if (count - 1) % n == k then 1 else 0
  }

  lemma DivStep(c: nat, n: nat)
    requires n > 0
    ensures if c % n + 1 < n then (c + 1) / n == c / n && (c + 1) % n == c % n + 1
            else (c + 1) / n == c / n + 1 && (c + 1) % n == 0
  {
    var q, r := c / n, c % n;
    assert c + 1 == q * n + r + 1;
    if r + 1 < n { DivIs(c + 1, n, q, r + 1); } else { DivIs(c + 1, n, q + 1, 0); }
  }

  lemma DivIs(c: nat, n: nat, q: nat, r: nat)
    requires n > 0 && r < n && c == q * n + r
    ensures c / n == q && c % n == r
  {
    QuotientUnique(n, c / n, c % n, q, r);
  }

  lemma QuotientUnique(n: nat, d: nat, m: nat, q: nat, r: nat)
    requires m < n && r < n && d * n + m == q * n + r
    ensures d == q && m == r
  {
    if d < q {
      MulGrows(n, q - d);
    } else if q < d {
      MulGrows(n, d - q);
    }
  }

  /** A broker leads a floor or a ceiling share of the partitions. */
  lemma {:induction false} LedByShare(k: nat, count: nat, n: nat)
    requires k < n
    ensures LedBy(k, count, n) == count / n + if k < count % n then 1 else 0
  {
    if count > 0 {
      LedByShare(k, count - 1, n);
      DivStep(count - 1, n);
    }
  }

  /** Initial leaders are balanced across brokers within one. */
  lemma LeadersBalanced(j: nat, k: nat, count: nat, n: nat)
    requires j < n && k < n
    ensures -1 <= LedBy(j, count, n) - LedBy(k, count, n) <= 1
  {
    LedByShare(j, count, n);
    LedByShare(k, count, n);
  }

  lemma LeaderIs(p: nat, brokers: seq<int>, rf: nat)
    requires brokers != [] && rf > 0
    ensures ReplicasOf(p, brokers, rf)[0] == brokers[p % |brokers|]
  {
    FirstSlot(p, |brokers|);
    hide Slot;
  }

  lemma FirstSlot(p: nat, n: nat)
    requires n > 0
    ensures Slot(p, 0, n) == p % n
  {
    DivIs(p % n, n, 0, p % n);
  }

  // ----- creating a topic -----

  datatype CreateResult =
    | InvalidPartitions
    | InvalidReplicationFactor
    | AlreadyExists
    | Created(partitions: seq<Partition>)

  type Registry = map<Bytes, seq<Partition>>

  /** Validates, assigns replicas round-robin, and starts every partition with
      its first replica as leader and all replicas in sync. */
  method CreateTopic(registry: Registry, name: Bytes, numPartitions: int, replicationFactor: int, brokers: seq<int>)
    returns (r: CreateResult)
    ensures r == CreatedTopic(registry, name, numPartitions, replicationFactor, brokers)
  {
    hide ReplicasOf;
    if numPartitions <= 0 { return InvalidPartitions; }
    if replicationFactor <= 0 || replicationFactor > |brokers| { return InvalidReplicationFactor; }
    var replicas := AssignReplicas(numPartitions, brokers, replicationFactor);
    var partitions: seq<Partition> := [];
    for i := 0 to numPartitions
      invariant partitions == NewPartitions(i, brokers, replicationFactor)
    {
      partitions := partitions + [Partition(i, replicas[i][0], replicas[i], replicas[i])];
    }
    if name in registry { return AlreadyExists; }
    return Created(partitions);
  }

  function NewPartition(i: nat, brokers: seq<int>, rf: nat): Partition
    requires brokers != [] && rf > 0
  {
    var rs := ReplicasOf(i, brokers, rf);
    Partition(i, rs[0], rs, rs)
  }

  function NewPartitions(count: nat, brokers: seq<int>, rf: nat): (ps: seq<Partition>)
    requires brokers != [] && rf > 0
    ensures |ps| == count
  {
    seq(count, i requires 0 <= i < count => NewPartition(i, brokers, rf))
  }

  function CreatedTopic(registry: Registry, name: Bytes, numPartitions: int, rf: int, brokers: seq<int>): CreateResult {
    if numPartitions <= 0 then InvalidPartitions
    else if rf <= 0 || rf > |brokers| then InvalidReplicationFactor
    else if name in registry then AlreadyExists
    else Created(NewPartitions(numPartitions, brokers, rf))
  }

  lemma SlotIs(p: nat, r: nat, n: nat)
    requires n > 0
    ensures Slot(p, r, n) == (p + r) % n
  {
    var q, m := p / n, p % n + r;
    MulAdds(q, m / n, n);
    DivIs(p + r, n, q + m / n, m % n);
  }

  lemma MulAdds(a: nat, b: nat, n: nat)
    ensures (a + b) * n == a * n + b * n
  {}

  /** The partitions of a new topic: numbered in order, each on rf brokers in a row
      from its own number on, wrapping, the first one leading and all of them in sync. */
  ghost predicate AsNew(ps: seq<Partition>, count: int, rf: int, brokers: seq<int>)
    requires brokers != []
  {
    && |ps| == count
    && forall i :: 0 <= i < count ==>
         && ps[i].id == i && |ps[i].replicas| == rf > 0 && ps[i].leader == ps[i].replicas[0]
         && ps[i].isr == ps[i].replicas
         && forall r :: 0 <= r < rf ==> ps[i].replicas[r] == brokers[(i + r) % |brokers|]
  }

  /** A topic is created exactly when the request is in range and the name is free;
      otherwise the first check that fails is answered. */
  lemma CreatedIs(registry: Registry, name: Bytes, numPartitions: int, rf: int, brokers: seq<int>)
    ensures var r, inRange := CreatedTopic(registry, name, numPartitions, rf, brokers), 0 < rf <= |brokers|;
            && (r == InvalidPartitions <==> numPartitions <= 0)
            && (r == InvalidReplicationFactor <==> numPartitions > 0 && !inRange)
            && (r == AlreadyExists <==> numPartitions > 0 && inRange && name in registry)
            && (r.Created? <==> numPartitions > 0 && inRange && name !in registry)
            && (r.Created? ==> AsNew(r.partitions, numPartitions, rf, brokers))
  {
    hide Slot;
    var r := CreatedTopic(registry, name, numPartitions, rf, brokers);
    if r.Created? {
      forall i, k | 0 <= i < numPartitions && 0 <= k < rf
        ensures r.partitions[i].replicas[k] == brokers[(i + k) % |brokers|]
      {
        SlotIs(i, k, |brokers|);
      }
    }
  }

  /** How many partitions broker b leads. */
  function Led(ps: seq<Partition>, b: int): nat {
    if ps == [] then 0 else Led(ps[..|ps| - 1], b) + if ps[|ps| - 1].leader == b then 1 else 0
  }

  lemma {:induction false} LedIs(count: nat, brokers: seq<int>, rf: nat, k: nat)
    requires k < |brokers| && rf > 0 && Distinct(brokers)
    ensures Led(NewPartitions(count, brokers, rf), brokers[k]) == LedBy(k, count, |brokers|)
  {
    hide ReplicasOf;
    if count > 0 {
      LedIs(count - 1, brokers, rf, k);
      assert NewPartitions(count, brokers, rf)[..count - 1] == NewPartitions(count - 1, brokers, rf);
      LeaderIs(count - 1, brokers, rf);
    }
  }

  /** The partitions of a new topic are led by every broker, as evenly as can be. */
  lemma CreatedBalanced(registry: Registry, name: Bytes, numPartitions: int, rf: int, brokers: seq<int>, a: int, b: int)
    requires Distinct(brokers) && a in brokers && b in brokers
    requires CreatedTopic(registry, name, numPartitions, rf, brokers).Created?
    ensures var ps := CreatedTopic(registry, name, numPartitions, rf, brokers).partitions;
            -1 <= Led(ps, a) - Led(ps, b) <= 1
  {
    hide NewPartitions, Led, LedBy;
    var i :| 0 <= i < |brokers| && brokers[i] == a;
    var j :| 0 <= j < |brokers| && brokers[j] == b;
    LedIs(numPartitions, brokers, rf, i);
    LedIs(numPartitions, brokers, rf, j);
    LeadersBalanced(i, j, numPartitions, |brokers|);
  }

  // ----- replacing a dead leader -----

  predicate Ascending(xs: seq<int>) {
    forall i, j :: 0 <= i < j < |xs| ==> xs[i] <= xs[j]
  }

  /** The members of xs that are neither the dead broker nor known to be down. */
  function StillAlive(xs: seq<int>, dead: int, alive: set<int>): seq<int> {
    if xs == [] then []
    else
      var init, b := StillAlive(xs[..|xs| - 1], dead, alive), xs[|xs| - 1];
      if b == dead || b !in alive then init else init + [b]
  }

  function Insert(xs: seq<int>, x: int): seq<int> {
    if xs == [] || xs[|xs| - 1] <= x then xs + [x] else Insert(xs[..|xs| - 1], x) + [xs[|xs| - 1]]
  }

  lemma {:induction false} InsertIs(xs: seq<int>, x: int)
    requires Ascending(xs)
    ensures Ascending(Insert(xs, x)) && multiset(Insert(xs, x)) == multiset(xs) + multiset{x}
  {
    if xs == [] || xs[|xs| - 1] <= x { Extended(xs, x); }
    else {
      var n := |xs| - 1;
      InsertIs(xs[..n], x);
      hide Insert;
      assert xs == xs[..n] + [xs[n]];
      Bounded(Insert(xs[..n], x), xs[..n], x, xs[n]);
      Extended(Insert(xs[..n], x), xs[n]);
    }
  }

  lemma Extended(xs: seq<int>, x: int)
    requires Ascending(xs) && forall i :: 0 <= i < |xs| ==> xs[i] <= x
    ensures Ascending(xs + [x]) && multiset(xs + [x]) == multiset(xs) + multiset{x}
  {}

  lemma Bounded(r: seq<int>, xs: seq<int>, x: int, bound: int)
    requires multiset(r) == multiset(xs) + multiset{x}
    requires x <= bound && forall i :: 0 <= i < |xs| ==> xs[i] <= bound
    ensures forall i :: 0 <= i < |r| ==> r[i] <= bound
  {
    forall i | 0 <= i < |r|
      ensures r[i] <= bound
    {
      assert r[i] in multiset(r);
      assert r[i] == x || r[i] in xs;
    }
  }

  function Sorted(xs: seq<int>): (r: seq<int>)
    ensures Ascending(r) && multiset(r) == multiset(xs)
  {
    if xs == [] then []
    else
      var n := |xs| - 1;
      assert xs == xs[..n] + [xs[n]];
      InsertIs(Sorted(xs[..n]), xs[n]);
      Insert(Sorted(xs[..n]), xs[n])
  }

  method LiveISR(isr: seq<int>, dead: int, alive: set<int>) returns (live: seq<int>)
    ensures live == Sorted(StillAlive(isr, dead, alive))
  {
    live := [];
    for i := 0 to |isr|
      invariant live == StillAlive(isr[..i], dead, alive)
    {
      assert isr[..i + 1][..i] == isr[..i];
      if isr[i] == dead { continue; }
      if isr[i] !in alive { continue; }
      live := live + [isr[i]];
    }
    assert isr[..|isr|] == isr;
    live := Sorted(live);
  }

  /** One partition when `dead` dies: a partition it led gets the smallest live
      in-sync replica as leader, if there is one. */
  function FailOver(p: Partition, dead: int, alive: set<int>): Partition {
    var live := Sorted(StillAlive(p.isr, dead, alive));
    if p.leader != dead || live == [] then p else p.(leader := live[0], isr := live)
  }

  /** Replicas are distinct, the leader is in sync, and the in-sync set is a
      repeat-free part of the replicas. */
  predicate WellShaped(p: Partition) {
    && Distinct(p.replicas)
    && Distinct(p.isr)
    && p.leader in p.isr
    && forall b :: b in p.isr ==> b in p.replicas
  }

  lemma NewPartitionShaped(i: nat, brokers: seq<int>, rf: nat)
    requires brokers != [] && 0 < rf <= |brokers| && Distinct(brokers)
    ensures WellShaped(NewPartition(i, brokers, rf))
  {
    ReplicasDistinct(i, brokers, rf);
  }

  lemma {:induction false} StillAliveIs(xs: seq<int>, dead: int, alive: set<int>)
    ensures forall b :: b in StillAlive(xs, dead, alive) <==> b in xs && b != dead && b in alive
    ensures Distinct(xs) ==> Distinct(StillAlive(xs, dead, alive))
  {
    if xs != [] {
      var n := |xs| - 1;
      StillAliveIs(xs[..n], dead, alive);
      var init := StillAlive(xs[..n], dead, alive);
      assert forall b :: b in init ==> b in xs[..n];
      assert xs == xs[..n] + [xs[n]];
      forall i | 0 <= i < |init|
        ensures Distinct(xs) ==> init[i] != xs[n]
      {
        assert init[i] in init;
        assert init[i] in xs[..n];
      }
    }
  }

  /** Failing over keeps the shape and the replicas, and shrinks the in-sync set.
      A replaced leader is the smallest live in-sync replica; without one, the
      partition stays with its dead leader. */
  lemma FailOverShaped(p: Partition, dead: int, alive: set<int>)
    requires WellShaped(p)
    ensures var q := FailOver(p, dead, alive);
            && WellShaped(q)
            && q.id == p.id && q.replicas == p.replicas
            && (forall b :: b in q.isr ==> b in p.isr)
            && (q.leader != p.leader ==>
                  && p.leader == dead
                  && q.leader in alive && q.leader in p.isr
                  && (forall b :: b in p.isr && b != dead && b in alive ==> q.leader <= b)
                  && (forall b :: b in q.isr <==> b in p.isr && b != dead && b in alive))
            && (q.leader == p.leader ==>
                  q == p && (p.leader != dead || forall b :: b in p.isr && b != dead ==> b !in alive))
  {
    hide Sorted;
    var kept := StillAlive(p.isr, dead, alive);
    StillAliveIs(p.isr, dead, alive);
    Permuted(kept, Sorted(kept));
    var live := Sorted(kept);
    if live == [] {
      forall b | b in p.isr && b != dead
        ensures b !in alive
      {
        assert b in alive ==> b in live;
      }
    } else {
      assert live[0] in live;
    }
  }

  /** Some in-sync replica other than the dead broker is alive. */
  ghost predicate HasHeir(p: Partition, dead: int, alive: set<int>) {
    exists b :: b in p.isr && b != dead && b in alive
  }

  /** q is p after the death: led by the smallest live in-sync replica, with the live
      ones in sync, if p lost its leader and there is one; p itself otherwise. */
  ghost predicate Inherits(p: Partition, q: Partition, dead: int, alive: set<int>) {
    if p.leader == dead && HasHeir(p, dead, alive) then
      && q.id == p.id && q.replicas == p.replicas
      && q.leader in p.isr && q.leader != dead && q.leader in alive
      && (forall b :: b in p.isr && b != dead && b in alive ==> q.leader <= b)
      && (forall b :: b in q.isr <==> b in p.isr && b != dead && b in alive)
    else q == p
  }

  lemma FailOverInherits(p: Partition, dead: int, alive: set<int>)
    requires WellShaped(p)
    ensures Inherits(p, FailOver(p, dead, alive), dead, alive)
  {
    hide FailOver;
    FailOverShaped(p, dead, alive);
  }

  /** A partition gets a new leader exactly when it lost its leader and has an heir. */
  lemma HeirIff(isr: seq<int>, dead: int, alive: set<int>)
    ensures Sorted(StillAlive(isr, dead, alive)) != [] <==> exists b :: b in isr && b != dead && b in alive
  {
    hide Sorted, StillAlive;
    var kept := StillAlive(isr, dead, alive);
    StillAliveIs(isr, dead, alive);
    Permuted(kept, Sorted(kept));
    if Sorted(kept) != [] { assert Sorted(kept)[0] in Sorted(kept); }
  }
}
