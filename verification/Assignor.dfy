/** The Range and RoundRobin partition assignors. */
module Assignor {
  import opened Wire
  import opened Lists
  import Topics

  datatype TopicPartitions = TopicPartitions(topic: Bytes, partitions: seq<int>)
  datatype Subscription = Subscription(member: Bytes, topics: seq<Bytes>)

  type Assignments = map<Bytes, seq<TopicPartitions>>
  type Counts = map<Bytes, nat>

  // ----- sorted names -----

  /** Byte-wise lexicographic order, as Go compares strings. */
  predicate Leq(a: Bytes, b: Bytes) {
    a == [] || (b != [] && (a[0] < b[0] || (a[0] == b[0] && Leq(a[1..], b[1..]))))
  }

  /** Byte k is the first that differs, and a's is the smaller. */
  ghost predicate SmallerAt(a: Bytes, b: Bytes, k: int) {
    0 <= k < |a| && k < |b| && a[..k] == b[..k] && a[k] < b[k]
  }

  lemma SmallerNext(a: Bytes, b: Bytes, k: nat)
    requires a != [] && b != [] && a[0] == b[0]
    ensures SmallerAt(a, b, k + 1) <==> SmallerAt(a[1..], b[1..], k)
  {
    if k + 1 < |a| && k + 1 < |b| {
      assert a[..k + 1] == [a[0]] + a[1..][..k] && b[..k + 1] == [b[0]] + b[1..][..k];
      if a[..k + 1] == b[..k + 1] { assert a[1..][..k] == a[..k + 1][1..] && b[1..][..k] == b[..k + 1][1..]; }
    }
  }

  /** A name that is a prefix comes first; otherwise the first byte that differs decides. */
  lemma {:induction false} LeqIff(a: Bytes, b: Bytes)
    ensures Leq(a, b) <==> a <= b || exists k :: SmallerAt(a, b, k)
  {
    if a != [] && b != [] && a[0] == b[0] {
      LeqIff(a[1..], b[1..]);
      assert a == [a[0]] + a[1..] && b == [b[0]] + b[1..];
      hide SmallerAt;
      if k :| SmallerAt(a, b, k) {
        NotAtFirst(a, b, k);
        SmallerNext(a, b, k - 1);
      }
      if k :| SmallerAt(a[1..], b[1..], k) {
        NotNegative(a[1..], b[1..], k);
        SmallerNext(a, b, k);
      }
    } else if a != [] && b != [] && a[0] < b[0] { assert SmallerAt(a, b, 0); }
  }

  lemma NotAtFirst(a: Bytes, b: Bytes, k: int)
    requires a != [] && b != [] && a[0] == b[0] && SmallerAt(a, b, k)
    ensures k >= 1
  {}

  lemma NotNegative(a: Bytes, b: Bytes, k: int)
    requires SmallerAt(a, b, k)
    ensures k >= 0
  {}

  lemma LeqTotal(a: Bytes, b: Bytes)
    ensures Leq(a, b) || Leq(b, a)
  {}

  lemma {:induction false} LeqTransitive(a: Bytes, b: Bytes, c: Bytes)
    requires Leq(a, b) && Leq(b, c)
    ensures Leq(a, c)
  {
    if a != [] && a[0] == b[0] && b[0] == c[0] { LeqTransitive(a[1..], b[1..], c[1..]); }
  }

  ghost predicate InOrder(names: seq<Bytes>) {
    forall i, j :: 0 <= i < j < |names| ==> Leq(names[i], names[j])
  }

  function Insert(names: seq<Bytes>, x: Bytes): (r: seq<Bytes>)
    ensures multiset(r) == multiset(names) + multiset{x}
  {
    if names == [] || Leq(names[|names| - 1], x) then names + [x]
    else
      var n := |names| - 1;
      assert names == names[..n] + [names[n]];
      Insert(names[..n], x) + [names[n]]
  }

  function Sort(names: seq<Bytes>): (r: seq<Bytes>)
    ensures multiset(r) == multiset(names)
  {
    if names == [] then []
    else
      assert names == names[..|names| - 1] + [names[|names| - 1]];
      Insert(Sort(names[..|names| - 1]), names[|names| - 1])
  }

  lemma {:induction false} InsertInOrder(names: seq<Bytes>, x: Bytes)
    requires InOrder(names)
    ensures InOrder(Insert(names, x))
  {
    if names != [] {
      var n := |names| - 1;
      var r := Insert(names[..n], x);
      if Leq(names[n], x) {
        forall i | 0 <= i < n ensures Leq(names[i], x) { LeqTransitive(names[i], names[n], x); }
      } else {
        LeqTotal(names[n], x);
        InsertInOrder(names[..n], x);
        forall i | 0 <= i < |r|
          ensures Leq(r[i], names[n])
        {
          assert r[i] in multiset(r);
          assert r[i] == x || r[i] in names[..n];
        }
      }
    }
  }

  /** Sorting a duplicate-free list lists the same names in order, once each. */
  lemma {:induction false} SortInOrder(names: seq<Bytes>)
    ensures InOrder(Sort(names))
    ensures |Sort(names)| == |names|
    ensures forall x :: x in Sort(names) <==> x in names
    ensures Distinct(names) ==> Distinct(Sort(names))
  {
    if names != [] {
      SortInOrder(names[..|names| - 1]);
      InsertInOrder(Sort(names[..|names| - 1]), names[|names| - 1]);
    }
    Permuted(names, Sort(names));
  }

  // ----- who gets what -----

  predicate Has(a: seq<TopicPartitions>, topic: Bytes, p: int) {
    exists i :: 0 <= i < |a| && a[i].topic == topic && p in a[i].partitions
  }

  function Get(a: Assignments, m: Bytes): seq<TopicPartitions> {
    if m in a then a[m] else []
  }

  function Members(subs: seq<Subscription>): (r: seq<Bytes>)
    ensures |r| == |subs|
  {
    seq(|subs|, i requires 0 <= i < |subs| => subs[i].member)
  }

  function Subscribers(subs: seq<Subscription>, topic: Bytes): seq<Bytes> {
    if subs == [] then []
    else
      var init, last := Subscribers(subs[..|subs| - 1], topic), subs[|subs| - 1];
      if topic in last.topics then init + [last.member] else init
  }

  lemma {:induction false} SubscribersAre(subs: seq<Subscription>, topic: Bytes)
    ensures forall m :: m in Subscribers(subs, topic) <==>
            exists i :: 0 <= i < |subs| && subs[i].member == m && topic in subs[i].topics
    ensures Distinct(Members(subs)) ==> Distinct(Subscribers(subs, topic))
  {
    if subs != [] {
      var n := |subs| - 1;
      SubscribersAre(subs[..n], topic);
      var init := Subscribers(subs[..n], topic);
      forall m
        ensures m in Subscribers(subs, topic) <==>
                exists i :: 0 <= i < |subs| && subs[i].member == m && topic in subs[i].topics
      {
        if m in init {
          var i :| 0 <= i < n && subs[..n][i].member == m && topic in subs[..n][i].topics;
          assert subs[i].member == m;
        }
        if i :| 0 <= i < |subs| && subs[i].member == m && topic in subs[i].topics {
          assert i < n ==> subs[..n][i] == subs[i];
        }
      }
      if Distinct(Members(subs)) {
        assert Members(subs)[..n] == Members(subs[..n]);
        forall i | 0 <= i < |init|
          ensures init[i] != subs[n].member
        {
          assert init[i] in init;
          var j :| 0 <= j < n && subs[..n][j].member == init[i] && topic in subs[..n][j].topics;
          assert Members(subs)[j] == init[i] && Members(subs)[n] == subs[n].member;
        }
      }
    }
  }

  /** topics lists the keys of counts in order. */
  ghost predicate ListsTopics(topics: seq<Bytes>, counts: Counts) {
    InOrder(topics) && Distinct(topics) && forall t :: t in topics <==> t in counts
  }

  method SortedTopics(counts: Counts) returns (topics: seq<Bytes>)
    ensures ListsTopics(topics, counts)
  {
    hide InOrder;
    topics := [];
    var left := counts.Keys;
    while left != {}
      invariant left <= counts.Keys && Distinct(topics)
      invariant forall t :: t in topics <==> t in counts && t !in left
      decreases left
    {
      var t :| t in left;
      left := left - {t};
      topics := topics + [t];
    }
    SortInOrder(topics);
    topics := Sort(topics);
  }

  // ----- Range -----

  /** Where member i's share of n partitions among k members starts. */
  function Start(n: nat, k: nat, i: nat): nat
    requires k > 0
  {
    i * (n / k) + if i < n % k then i else n % k
  }

  lemma StartStep(n: nat, k: nat, i: nat)
    requires i < k
    ensures Start(n, k, i + 1) == Start(n, k, i) + n / k + if i < n % k then 1 else 0
    ensures Start(n, k, 0) == 0 && Start(n, k, k) == n
  {
    assert (i + 1) * (n / k) == i * (n / k) + n / k;
    assert k * (n / k) + n % k == n;
  }

  lemma {:induction false} StartGrows(n: nat, k: nat, i: nat, j: nat)
    requires i <= j <= k && k > 0
    ensures Start(n, k, i) <= Start(n, k, j)
  {
    hide Start;
    if i < j {
      StartGrows(n, k, i, j - 1);
      StartStep(n, k, j - 1);
    }
  }

  /** Every partition lies in exactly one share. */
  lemma {:induction false} ShareOf(n: nat, k: nat, p: nat, bound: nat) returns (i: nat)
    requires k > 0 && 0 < bound <= k && p < Start(n, k, bound)
    ensures i < bound && Start(n, k, i) <= p < Start(n, k, i + 1)
    ensures forall j :: 0 <= j < k && j != i ==> !(Start(n, k, j) <= p < Start(n, k, j + 1))
  {
    hide Start;
    if Start(n, k, bound - 1) <= p {
      i := bound - 1;
      forall j | 0 <= j < k && j != i
        ensures !(Start(n, k, j) <= p < Start(n, k, j + 1))
      {
        if j < i { StartGrows(n, k, j + 1, i); } else { StartGrows(n, k, i + 1, j); }
      }
    } else {
      StartStep(n, k, 0);
      i := ShareOf(n, k, p, bound - 1);
    }
  }

  function Interval(a: int, b: int): (r: seq<int>)
    requires a <= b
    ensures |r| == b - a
    ensures forall p :: p in r <==> a <= p < b
    decreases b - a
  {
    if a == b then [] else Interval(a, b - 1) + [b - 1]
  }

  method ContiguousPartitions(start: int, end: int) returns (r: seq<int>)
    requires start <= end
    ensures r == Interval(start, end)
  {
    r := [];
    for p := start to end
      invariant r == Interval(start, p)
    {
      r := r + [p];
    }
  }

  /** What the i-th of k turns at a topic brings. */
  function Turn(topic: Bytes, n: nat, k: nat, i: nat): (r: seq<TopicPartitions>)
    requires i < k
    ensures |r| <= 1
  {
    StartGrows(n, k, i, i + 1);
    if Start(n, k, i) == Start(n, k, i + 1) then []
    else [TopicPartitions(topic, Interval(Start(n, k, i), Start(n, k, i + 1)))]
  }

  /** What member m has after i turns: a repeated id takes several. */
  function Turns(topic: Bytes, members: seq<Bytes>, n: nat, m: Bytes, i: nat): seq<TopicPartitions>
    requires i <= |members|
  {
    if i == 0 then []
    else
      Turns(topic, members, n, m, i - 1) + if members[i - 1] == m then Turn(topic, n, |members|, i - 1) else []
  }

  /** Member m's share of one topic. */
  function TopicShare(topic: Bytes, members: seq<Bytes>, n: nat, m: Bytes): seq<TopicPartitions> {
    Turns(topic, members, n, m, |members|)
  }

  function RangeFor(topics: seq<Bytes>, subs: seq<Subscription>, counts: Counts, m: Bytes): seq<TopicPartitions>
    requires forall t :: t in topics ==> t in counts
  {
    if topics == [] then []
    else
      var t := topics[|topics| - 1];
      RangeFor(topics[..|topics| - 1], subs, counts, m) + TopicShare(t, Sort(Subscribers(subs, t)), counts[t], m)
  }

  /** The first i turns have been taken. */
  ghost predicate Served(r: Assignments, before: Assignments, topic: Bytes, members: seq<Bytes>, n: nat, i: nat)
    requires i <= |members|
  {
    forall m :: Get(r, m) == Get(before, m) + Turns(topic, members, n, m, i)
  }

  lemma ServeOne(r: Assignments, r': Assignments, before: Assignments, topic: Bytes, members: seq<Bytes>, n: nat,
                 i: nat)
    requires i < |members| && Served(r, before, topic, members, n, i)
    requires forall m ::
               Get(r', m) == Get(r, m) + if m == members[i] then Turn(topic, n, |members|, i) else []
    ensures Served(r', before, topic, members, n, i + 1)
  {
    hide Turn, Get;
    forall m
      ensures Get(r', m) == Get(before, m) + Turns(topic, members, n, m, i + 1)
    {
      assert Get(r, m) == Get(before, m) + Turns(topic, members, n, m, i);
    }
  }

  /** One topic: the members take turns; the first n % k get one more. */
  method RangeTopic(assignments: Assignments, topic: Bytes, members: seq<Bytes>, n: nat) returns (r: Assignments)
    ensures forall m :: Get(r, m) == Get(assignments, m) + TopicShare(topic, members, n, m)
  {
    hide Start, Interval, Turns, Turn, Get;
    r := assignments;
    NobodyServed(assignments, topic, members, n);
    if |members| == 0 { return; }
    var k := |members|;
    var perMember, extra, cursor := n / k, n % k, 0;
    StartStep(n, k, 0);
    for i := 0 to k
      invariant cursor == Start(n, k, i)
      invariant Served(r, assignments, topic, members, n, i)
    {
      var count := if i < extra then perMember + 1 else perMember;
      StartStep(n, k, i);
      TurnBrings(topic, n, k, i);
      ghost var before := r;
      if count == 0 {
        TakeTurn(r, r, members[i], []);
        ServeOne(before, r, assignments, topic, members, n, i);
        continue;
      }
      var partitions := ContiguousPartitions(cursor, cursor + count);
      r := r[members[i] := Get(r, members[i]) + [TopicPartitions(topic, partitions)]];
      TakeTurn(before, r, members[i], [TopicPartitions(topic, partitions)]);
      ServeOne(before, r, assignments, topic, members, n, i);
      cursor := cursor + count;
    }
  }

  lemma TurnBrings(topic: Bytes, n: nat, k: nat, i: nat)
    requires i < k
    ensures Start(n, k, i) <= Start(n, k, i + 1)
    ensures Turn(topic, n, k, i) ==
            (if Start(n, k, i) == Start(n, k, i + 1) then []
             else [TopicPartitions(topic, Interval(Start(n, k, i), Start(n, k, i + 1)))])
  {
    hide Start, Interval;
    StartGrows(n, k, i, i + 1);
  }

  lemma TakeTurn(r: Assignments, r': Assignments, m: Bytes, turn: seq<TopicPartitions>)
    requires r' == r[m := Get(r, m) + turn] || (r' == r && turn == [])
    ensures forall x :: Get(r', x) == Get(r, x) + if x == m then turn else []
  {
    assert forall x :: Get(r, x) + [] == Get(r, x);
  }

  lemma NobodyServed(before: Assignments, topic: Bytes, members: seq<Bytes>, n: nat)
    ensures Served(before, before, topic, members, n, 0)
  {
    hide Get;
  }

  /** Every member has its share of each topic, in the order of the topics. */
  ghost predicate RangePlan(a: Assignments, topics: seq<Bytes>, subs: seq<Subscription>, counts: Counts) {
    ListsTopics(topics, counts) && forall m :: Get(a, m) == RangeFor(topics, subs, counts, m)
  }

  method Range(subs: seq<Subscription>, counts: Counts) returns (assignments: Assignments)
    ensures exists topics :: RangePlan(assignments, topics, subs, counts)
  {
    hide TopicShare, InOrder;
    assignments := map[];
    var ts := SortedTopics(counts);
    for i := 0 to |ts|
      invariant forall m :: Get(assignments, m) == RangeFor(ts[..i], subs, counts, m)
    {
      var t := ts[i];
      assert ts[..i + 1][..i] == ts[..i];
      assignments := RangeTopic(assignments, t, Sort(Subscribers(subs, t)), counts[t]);
    }
    assert ts[..|ts|] == ts;
    assert RangePlan(assignments, ts, subs, counts);
  }

  /** Turn i is m's and brings partition p. */
  ghost predicate TurnHas(members: seq<Bytes>, n: nat, m: Bytes, p: int, i: nat)
    requires i < |members|
  {
    members[i] == m && Start(n, |members|, i) <= p < Start(n, |members|, i + 1)
  }

  /** p is in the share that m gets of n partitions. */
  ghost predicate InShare(members: seq<Bytes>, n: nat, m: Bytes, p: int) {
    exists i :: 0 <= i < |members| && TurnHas(members, n, m, p, i)
  }

  lemma TurnIs(topic: Bytes, members: seq<Bytes>, n: nat, m: Bytes, t: Bytes, p: int, i: nat)
    requires i < |members| && members[i] == m
    ensures Has(Turn(topic, n, |members|, i), t, p) <==> t == topic && TurnHas(members, n, m, p, i)
  {
    hide Start;
    StartGrows(n, |members|, i, i + 1);
    var a := Turn(topic, n, |members|, i);
    if a != [] { assert p in a[0].partitions ==> t == topic ==> Has(a, t, p); }
  }

  lemma {:induction false} TurnsHave(topic: Bytes, members: seq<Bytes>, n: nat, m: Bytes, t: Bytes, p: int, i: nat)
    requires i <= |members|
    ensures Has(Turns(topic, members, n, m, i), t, p) <==>
            t == topic && exists x :: 0 <= x < i && TurnHas(members, n, m, p, x)
  {
    hide TurnHas, Has, Turn;
    if i == 0 { NothingHas(t, p); }
    else {
      TurnsHave(topic, members, n, m, t, p, i - 1);
      var turn := if members[i - 1] == m then Turn(topic, n, |members|, i - 1) else [];
      HasConcat(Turns(topic, members, n, m, i - 1), turn, t, p);
      if members[i - 1] == m { TurnIs(topic, members, n, m, t, p, i - 1); }
      else {
        NothingHas(t, p);
        NotItsTurn(members, n, m, p, i - 1);
      }
    }
  }

  lemma NotItsTurn(members: seq<Bytes>, n: nat, m: Bytes, p: int, i: nat)
    requires i < |members| && members[i] != m
    ensures !TurnHas(members, n, m, p, i)
  {}

  lemma HasConcat(a: seq<TopicPartitions>, b: seq<TopicPartitions>, t: Bytes, p: int)
    ensures Has(a + b, t, p) <==> Has(a, t, p) || Has(b, t, p)
  {
    if Has(a, t, p) {
      var i :| 0 <= i < |a| && a[i].topic == t && p in a[i].partitions;
      assert (a + b)[i] == a[i];
    }
    if Has(b, t, p) {
      var i :| 0 <= i < |b| && b[i].topic == t && p in b[i].partitions;
      assert (a + b)[|a| + i] == b[i];
    }
  }

  lemma {:induction false} RangeForHas(topics: seq<Bytes>, subs: seq<Subscription>, counts: Counts,
                                       m: Bytes, t: Bytes, p: int)
    requires Distinct(topics) && forall x :: x in topics ==> x in counts
    ensures Has(RangeFor(topics, subs, counts, m), t, p) <==>
            t in topics && InShare(Sort(Subscribers(subs, t)), counts[t], m, p)
  {
    hide Turns, TurnHas, Has, Subscribers, Sort;
    if topics == [] {
      NothingHas(t, p);
    } else {
      var n := |topics| - 1;
      var last := topics[n];
      var members := Sort(Subscribers(subs, last));
      RangeForHas(topics[..n], subs, counts, m, t, p);
      TurnsHave(last, members, counts[last], m, t, p, |members|);
      HasConcat(RangeFor(topics[..n], subs, counts, m), TopicShare(last, members, counts[last], m), t, p);
      assert t in topics <==> t in topics[..n] || t == last;
    }
  }

  lemma NothingHas(t: Bytes, p: int)
    ensures !Has([], t, p)
  {}

  /** Range gives every partition of a topic that somebody subscribes to exactly
      one member, and that member is a subscriber. */
  lemma RangeExact(topics: seq<Bytes>, subs: seq<Subscription>, counts: Counts, t: Bytes, p: nat) returns (owner: Bytes)
    requires ListsTopics(topics, counts)
    requires t in counts && p < counts[t] && Subscribers(subs, t) != []
    ensures owner in Subscribers(subs, t)
    ensures forall m :: Has(RangeFor(topics, subs, counts, m), t, p) <==> m == owner
  {
    hide Start, Has, RangeFor, Sort, Subscribers, InOrder;
    var members := Sort(Subscribers(subs, t));
    Permuted(Subscribers(subs, t), members);
    var n, k := counts[t], |members|;
    StartStep(n, k, 0);
    var i := ShareOf(n, k, p, k);
    owner := members[i];
    forall m
      ensures Has(RangeFor(topics, subs, counts, m), t, p) <==> m == owner
    {
      RangeForHas(topics, subs, counts, m, t, p);
      if m == owner { assert TurnHas(members, n, m, p, i); }
    }
  }

  /** No member is given anything else: unknown topics, partitions out of range, or
      topics it does not subscribe to. */
  lemma RangeOnly(topics: seq<Bytes>, subs: seq<Subscription>, counts: Counts, m: Bytes, t: Bytes, p: int)
    requires ListsTopics(topics, counts)
    requires Has(RangeFor(topics, subs, counts, m), t, p)
    ensures t in counts && 0 <= p < counts[t] && m in Subscribers(subs, t)
  {
    hide Has, RangeFor, Sort, Subscribers, InOrder, Start;
    RangeForHas(topics, subs, counts, m, t, p);
    var members := Sort(Subscribers(subs, t));
    Permuted(Subscribers(subs, t), members);
    var i :| 0 <= i < |members| && TurnHas(members, counts[t], m, p, i);
    StartGrows(counts[t], |members|, i + 1, |members|);
    StartStep(counts[t], |members|, i);
  }

  /** Distinct members take one turn each. */
  lemma {:induction false} OneTurn(topic: Bytes, members: seq<Bytes>, n: nat, at: nat, i: nat)
    requires Distinct(members) && at < |members| && i <= |members|
    ensures Turns(topic, members, n, members[at], i) == if at < i then Turn(topic, n, |members|, at) else []
  {
    hide Turn;
    if i > 0 { OneTurn(topic, members, n, at, i - 1); }
  }

  lemma {:induction false} NoTurn(topic: Bytes, members: seq<Bytes>, n: nat, m: Bytes, i: nat)
    requires m !in members && i <= |members|
    ensures Turns(topic, members, n, m, i) == []
  {
    if i > 0 { NoTurn(topic, members, n, m, i - 1); }
  }

  /** One entry per topic, each a contiguous, non-empty run of partitions. */
  ghost predicate OneRunEach(a: seq<TopicPartitions>, topics: seq<Bytes>) {
    && (forall i :: 0 <= i < |a| ==> a[i].topic in topics && IsRun(a[i].partitions))
    && (forall i, j :: 0 <= i < j < |a| ==> a[i].topic != a[j].topic)
  }

  lemma {:induction false} RangeContiguous(topics: seq<Bytes>, subs: seq<Subscription>, counts: Counts, m: Bytes)
    requires Distinct(topics) && Distinct(Members(subs)) && forall t :: t in topics ==> t in counts
    ensures OneRunEach(RangeFor(topics, subs, counts, m), topics)
  {
    hide TopicShare, IsRun, Subscribers, Sort, Members;
    if topics != [] {
      var n := |topics| - 1;
      RangeContiguous(topics[..n], subs, counts, m);
      assert topics[n] !in topics[..n];
      var subscribers := Subscribers(subs, topics[n]);
      SubscribersAre(subs, topics[n]);
      Permuted(subscribers, Sort(subscribers));
      ShareIsRun(topics[n], Sort(subscribers), counts[topics[n]], m);
    }
  }

  lemma ShareIsRun(topic: Bytes, members: seq<Bytes>, n: nat, m: Bytes)
    requires Distinct(members)
    ensures var share := TopicShare(topic, members, n, m);
            |share| <= 1 && (share != [] ==> share[0].topic == topic && IsRun(share[0].partitions))
  {
    hide Start, Interval, Turns;
    if m in members {
      var i :| 0 <= i < |members| && members[i] == m;
      OneTurn(topic, members, n, i, |members|);
      StartGrows(n, |members|, i, i + 1);
    } else {
      NoTurn(topic, members, n, m, |members|);
    }
  }

  ghost predicate IsRun(partitions: seq<int>) {
    exists a, b :: a < b && partitions == Interval(a, b)
  }

  /** Exactly the partitions a..b-1 of the topic. */
  ghost predicate HasInterval(given: seq<TopicPartitions>, t: Bytes, a: nat, b: nat) {
    a <= b && forall p :: Has(given, t, p) <==> a <= p < b
  }

  lemma RangeInterval(topics: seq<Bytes>, subs: seq<Subscription>, counts: Counts, t: Bytes, m: Bytes)
    returns (a: nat, b: nat)
    requires ListsTopics(topics, counts) && Distinct(Members(subs)) && t in counts && m in Subscribers(subs, t)
    ensures HasInterval(RangeFor(topics, subs, counts, m), t, a, b)
    ensures Near(b - a, counts[t], |Subscribers(subs, t)|)
  {
    hide Start, Has, RangeFor, InOrder, Sort, Subscribers, Members, Near;
    var members, n := Sort(Subscribers(subs, t)), counts[t];
    SubscribersAre(subs, t);
    Permuted(Subscribers(subs, t), members);
    var i :| 0 <= i < |members| && members[i] == m;
    a, b := Start(n, |members|, i), Start(n, |members|, i + 1);
    NearShare(n, |members|, i);
    forall p ensures Has(RangeFor(topics, subs, counts, m), t, p) <==> a <= p < b {
      RangeForHas(topics, subs, counts, m, t, p);
      OnlyTurn(members, n, p, i);
    }
  }

  lemma OnlyTurn(members: seq<Bytes>, n: nat, p: int, i: nat)
    requires Distinct(members) && i < |members|
    ensures InShare(members, n, members[i], p) <==> Start(n, |members|, i) <= p < Start(n, |members|, i + 1)
  {
    hide Start;
    if Start(n, |members|, i) <= p < Start(n, |members|, i + 1) { assert TurnHas(members, n, members[i], p, i); }
  }

  /** n shared among k: a share is n / k, rounded down or up. */
  ghost predicate Near(length: int, n: nat, k: nat) {
    k > 0 && n / k <= length <= n / k + 1
  }

  lemma NearShare(n: nat, k: nat, i: nat)
    requires i < k
    ensures Start(n, k, i) <= Start(n, k, i + 1) && Near(Start(n, k, i + 1) - Start(n, k, i), n, k)
  {
    hide Start;
    StartStep(n, k, i);
  }

  /** Two subscribers' shares of a topic are intervals whose lengths differ by at most one. */
  lemma RangeFair(topics: seq<Bytes>, subs: seq<Subscription>, counts: Counts, t: Bytes, m: Bytes, m': Bytes)
    returns (a: nat, b: nat, a': nat, b': nat)
    requires ListsTopics(topics, counts) && Distinct(Members(subs))
    requires t in counts && m in Subscribers(subs, t) && m' in Subscribers(subs, t)
    ensures HasInterval(RangeFor(topics, subs, counts, m), t, a, b)
    ensures HasInterval(RangeFor(topics, subs, counts, m'), t, a', b')
    ensures -1 <= (b - a) - (b' - a') <= 1
  {
    hide HasInterval, RangeFor, InOrder, Subscribers, Members;
    a, b := RangeInterval(topics, subs, counts, t, m);
    a', b' := RangeInterval(topics, subs, counts, t, m');
  }

  // ----- RoundRobin -----

  function AppendPartition(a: seq<TopicPartitions>, topic: Bytes, p: int): seq<TopicPartitions> {
    if a != [] && a[|a| - 1].topic == topic then
      a[|a| - 1 := a[|a| - 1].(partitions := a[|a| - 1].partitions + [p])]
    else a + [TopicPartitions(topic, [p])]
  }

  /** All partitions of the topics, laid out in order. */
  function Flat(topics: seq<Bytes>, counts: Counts): seq<(Bytes, int)>
    requires forall t :: t in topics ==> t in counts
  {
    if topics == [] then []
    else Flat(topics[..|topics| - 1], counts) + Row(topics[|topics| - 1], counts[topics[|topics| - 1]])
  }

  function Row(topic: Bytes, n: nat): (r: seq<(Bytes, int)>)
    ensures |r| == n
  {
    seq(n, p requires 0 <= p < n => (topic, p))
  }

  /** What member m is dealt: a repeated id has several seats. */
  function Dealt(m: Bytes, members: seq<Bytes>, flat: seq<(Bytes, int)>): seq<TopicPartitions>
    requires members != []
  {
    if flat == [] then []
    else
      var n := |flat| - 1;
      var before := Dealt(m, members, flat[..n]);
      if members[n % |members|] == m then AppendPartition(before, flat[n].0, flat[n].1) else before
  }

  ghost predicate DealtSoFar(a: Assignments, members: seq<Bytes>, flat: seq<(Bytes, int)>)
    requires members != []
  {
    forall m :: Get(a, m) == Dealt(m, members, flat)
  }

  /** The partitions of all topics, laid out in order, are dealt to the members in turn. */
  ghost predicate RoundRobinPlan(a: Assignments, topics: seq<Bytes>, members: seq<Bytes>, counts: Counts) {
    ListsTopics(topics, counts) && if members == [] then a == map[] else DealtSoFar(a, members, Flat(topics, counts))
  }

  method RoundRobin(subs: seq<Subscription>, counts: Counts) returns (a: Assignments)
    ensures exists topics :: RoundRobinPlan(a, topics, Sort(Members(subs)), counts)
  {
    hide InOrder, Dealt, Get, AppendPartition, DealtSoFar, Flat, Row;
    a := map[];
    var members := Sort(Members(subs));
    var ts := SortedTopics(counts);
    if |members| == 0 {
      assert RoundRobinPlan(a, ts, members, counts);
      return;
    }
    var i := 0;
    ghost var flat: seq<(Bytes, int)> := [];
    NothingDealt(members);
    NothingLaidOut(ts, counts);
    for t := 0 to |ts|
      invariant flat == Flat(ts[..t], counts) && i == |flat| && DealtSoFar(a, members, flat)
    {
      FlatStep(ts, t, counts);
      ghost var done := flat;
      for p := 0 to counts[ts[t]]
        invariant flat == done + Row(ts[t], p) && i == |flat| && DealtSoFar(a, members, flat)
      {
        var m := members[i % |members|];
        DealOne(a, members, flat, ts[t], p);
        a := a[m := AppendPartition(Get(a, m), ts[t], p)];
        RowStep(ts[t], p);
        flat := flat + [(ts[t], p)];
        i := i + 1;
      }
    }
    assert ts[..|ts|] == ts;
    assert RoundRobinPlan(a, ts, members, counts);
  }

  lemma NothingLaidOut(topics: seq<Bytes>, counts: Counts)
    ensures Flat(topics[..0], counts) == []
  {}

  lemma FlatStep(topics: seq<Bytes>, t: nat, counts: Counts)
    requires t < |topics| && forall x :: x in topics ==> x in counts
    ensures Flat(topics[..t + 1], counts) == Flat(topics[..t], counts) + Row(topics[t], counts[topics[t]])
  {
    assert topics[..t + 1][..t] == topics[..t];
  }

  lemma RowStep(topic: Bytes, p: nat)
    ensures Row(topic, p + 1) == Row(topic, p) + [(topic, p)]
  {}

  lemma NothingDealt(members: seq<Bytes>)
    requires members != []
    ensures DealtSoFar(map[], members, [])
  {}

  lemma DealOne(a: Assignments, members: seq<Bytes>, flat: seq<(Bytes, int)>, t: Bytes, p: int)
    requires members != [] && DealtSoFar(a, members, flat)
    ensures var m := members[|flat| % |members|];
            DealtSoFar(a[m := AppendPartition(Get(a, m), t, p)], members, flat + [(t, p)])
  {
    hide AppendPartition;
    var dealt := flat + [(t, p)];
    assert dealt[..|flat|] == flat;
    var m := members[|flat| % |members|];
    var a' := a[m := AppendPartition(Get(a, m), t, p)];
    forall x ensures Get(a', x) == Dealt(x, members, dealt) {
      assert Get(a, x) == Dealt(x, members, flat);
    }
  }

  lemma AppendHas(a: seq<TopicPartitions>, topic: Bytes, q: int, t: Bytes, p: int)
    ensures Has(AppendPartition(a, topic, q), t, p) <==> Has(a, t, p) || (t == topic && p == q)
  {
    var a', n := AppendPartition(a, topic, q), |a| - 1;
    if a != [] && a[n].topic == topic {
      assert a'[n].partitions == a[n].partitions + [q];
      if Has(a, t, p) {
        var i :| 0 <= i < |a| && a[i].topic == t && p in a[i].partitions;
        assert a'[i].topic == t && p in a'[i].partitions;
      }
      if Has(a', t, p) {
        var i :| 0 <= i < |a'| && a'[i].topic == t && p in a'[i].partitions;
        assert i < n ==> a[i] == a'[i];
      }
      if t == topic && p == q { assert p in a'[n].partitions; }
    } else {
      HasConcat(a, [TopicPartitions(topic, [q])], t, p);
      assert Has([TopicPartitions(topic, [q])], t, p) <==> t == topic && p == q by {
        assert [TopicPartitions(topic, [q])][0].topic == topic;
      }
    }
  }

  /** Seat i is m's and is dealt that partition. */
  predicate SeatHas(m: Bytes, members: seq<Bytes>, flat: seq<(Bytes, int)>, t: Bytes, p: int, i: nat)
    requires members != [] && i < |flat|
  {
    flat[i] == (t, p) && members[i % |members|] == m
  }

  lemma {:induction false} DealtHas(m: Bytes, members: seq<Bytes>, flat: seq<(Bytes, int)>, t: Bytes, p: int)
    requires members != []
    ensures Has(Dealt(m, members, flat), t, p) <==> exists i :: 0 <= i < |flat| && SeatHas(m, members, flat, t, p, i)
  {
    hide Has, AppendPartition;
    if flat == [] {
      NothingHas(t, p);
    } else {
      var n := |flat| - 1;
      var init := flat[..n];
      DealtHas(m, members, init, t, p);
      AppendHas(Dealt(m, members, init), flat[n].0, flat[n].1, t, p);
      assert forall i :: 0 <= i < n ==> (SeatHas(m, members, init, t, p, i) <==> SeatHas(m, members, flat, t, p, i));
      assert SeatHas(m, members, flat, t, p, n) <==> flat[n] == (t, p) && members[n % |members|] == m;
    }
  }

  lemma {:induction false} FlatHas(topics: seq<Bytes>, counts: Counts, t: Bytes, p: int)
    requires Distinct(topics) && forall x :: x in topics ==> x in counts
    ensures (t, p) in Flat(topics, counts) <==> t in topics && 0 <= p < counts[t]
    ensures Distinct(Flat(topics, counts))
  {
    if topics != [] {
      var n := |topics| - 1;
      var last := topics[n];
      var init, row := Flat(topics[..n], counts), Row(last, counts[last]);
      var all: seq<(Bytes, int)> := init + row;
      FlatHas(topics[..n], counts, t, p);
      assert topics == topics[..n] + [last] && last !in topics[..n];
      assert (t, p) in row <==> t == last && 0 <= p < counts[last] by {
        if t == last && 0 <= p < counts[last] { assert row[p] == (t, p); }
      }
      forall i, j | 0 <= i < j < |all|
        ensures all[i] != all[j]
      {
        if i < |init| && j >= |init| {
          FlatHas(topics[..n], counts, init[i].0, init[i].1);
          assert init[i] in init;
        }
      }
    }
  }

  /** RoundRobin deals every partition of every topic to exactly one member. */
  lemma RoundRobinExact(topics: seq<Bytes>, counts: Counts, members: seq<Bytes>, t: Bytes, p: nat)
    returns (owner: Bytes)
    requires ListsTopics(topics, counts) && members != [] && t in counts && p < counts[t]
    ensures owner in members
    ensures forall m :: Has(Dealt(m, members, Flat(topics, counts)), t, p) <==> m == owner
  {
    hide Has, Dealt, InOrder, Flat;
    var flat := Flat(topics, counts);
    FlatHas(topics, counts, t, p);
    var at :| 0 <= at < |flat| && flat[at] == (t, p);
    owner := members[at % |members|];
    forall m
      ensures Has(Dealt(m, members, flat), t, p) <==> m == owner
    {
      DealtHas(m, members, flat, t, p);
      if m == owner { assert SeatHas(m, members, flat, t, p, at); }
    }
  }

  /** And nothing else: what a member is dealt exists, and only members are dealt to. */
  lemma RoundRobinOnly(topics: seq<Bytes>, counts: Counts, m: Bytes, members: seq<Bytes>, t: Bytes, p: int)
    requires ListsTopics(topics, counts) && members != []
    requires Has(Dealt(m, members, Flat(topics, counts)), t, p)
    ensures m in members && t in counts && 0 <= p < counts[t]
  {
    hide Has, Dealt, InOrder, Flat;
    DealtHas(m, members, Flat(topics, counts), t, p);
    FlatHas(topics, counts, t, p);
  }

  function Total(a: seq<TopicPartitions>): nat {
    if a == [] then 0 else Total(a[..|a| - 1]) + |a[|a| - 1].partitions|
  }

  lemma AppendTotal(a: seq<TopicPartitions>, t: Bytes, p: int)
    ensures Total(AppendPartition(a, t, p)) == Total(a) + 1
  {
    var a', n := AppendPartition(a, t, p), |a| - 1;
    if a != [] && a[n].topic == t { assert a'[..n] == a[..n]; } else { assert a'[..|a|] == a; }
  }

  lemma {:induction false} DealtTotal(j: nat, members: seq<Bytes>, flat: seq<(Bytes, int)>)
    requires j < |members| && Distinct(members)
    ensures Total(Dealt(members[j], members, flat)) == Topics.LedBy(j, |flat|, |members|)
  {
    hide Total, AppendPartition;
    if flat == [] {
      NoTotal();
    } else {
      var n := |flat| - 1;
      DealtTotal(j, members, flat[..n]);
      AppendTotal(Dealt(members[j], members, flat[..n]), flat[n].0, flat[n].1);
    }
  }

  lemma NoTotal()
    ensures Total([]) == 0
  {}

  /** Member totals differ by at most one. */
  lemma RoundRobinFair(m: Bytes, m': Bytes, members: seq<Bytes>, flat: seq<(Bytes, int)>)
    requires m in members && m' in members && Distinct(members)
    ensures -1 <= Total(Dealt(m, members, flat)) - Total(Dealt(m', members, flat)) <= 1
  {
    hide Total, Dealt;
    var i :| 0 <= i < |members| && members[i] == m;
    var j :| 0 <= j < |members| && members[j] == m';
    DealtTotal(i, members, flat);
    DealtTotal(j, members, flat);
    Topics.LeadersBalanced(i, j, |flat|, |members|);
  }

  /** Equal topics are adjacent. */
  ghost predicate Grouped(flat: seq<(Bytes, int)>) {
    forall i, j, l :: 0 <= i < j < l < |flat| && flat[i].0 == flat[l].0 ==> flat[j].0 == flat[l].0
  }

  lemma {:induction false} FlatGrouped(topics: seq<Bytes>, counts: Counts)
    requires Distinct(topics) && forall x :: x in topics ==> x in counts
    ensures Grouped(Flat(topics, counts))
  {
    if topics != [] {
      var n := |topics| - 1;
      FlatGrouped(topics[..n], counts);
      var init := Flat(topics[..n], counts);
      assert topics[n] !in topics[..n];
      forall i | 0 <= i < |init|
        ensures init[i].0 != topics[n]
      {
        FlatHas(topics[..n], counts, init[i].0, init[i].1);
        assert init[i] in init;
      }
    }
  }

  ghost predicate Contains(flat: seq<(Bytes, int)>, topic: Bytes) {
    exists x :: 0 <= x < |flat| && flat[x].0 == topic
  }

  /** Each topic appears at most once, and the one being dealt appears last. */
  ghost predicate OnceEach(a: seq<TopicPartitions>, flat: seq<(Bytes, int)>) {
    && (forall i :: 0 <= i < |a| ==> Contains(flat, a[i].topic))
    && (forall i, j :: 0 <= i < j < |a| ==> a[i].topic != a[j].topic)
    && (flat != [] ==> forall i :: 0 <= i < |a| - 1 ==> a[i].topic != flat[|flat| - 1].0)
  }

  lemma PassOver(a: seq<TopicPartitions>, flat: seq<(Bytes, int)>)
    requires flat != [] && Grouped(flat) && OnceEach(a, flat[..|flat| - 1])
    ensures OnceEach(a, flat)
  {
    var n := |flat| - 1;
    forall i | 0 <= i < |a|
      ensures Contains(flat, a[i].topic) && (a[i].topic == flat[n].0 ==> i == |a| - 1)
    {
      StillContains(flat, a[i].topic);
    }
  }

  lemma StillContains(flat: seq<(Bytes, int)>, topic: Bytes)
    requires flat != [] && Grouped(flat) && Contains(flat[..|flat| - 1], topic)
    ensures Contains(flat, topic) && (topic == flat[|flat| - 1].0 ==> flat[..|flat| - 1][|flat| - 2].0 == topic)
  {
    var n := |flat| - 1;
    var x :| 0 <= x < n && flat[..n][x].0 == topic;
    assert flat[x].0 == topic;
    if topic == flat[n].0 && x < n - 1 { assert flat[n - 1].0 == flat[n].0; }
  }

  lemma DealIn(a: seq<TopicPartitions>, flat: seq<(Bytes, int)>)
    requires flat != [] && OnceEach(a, flat)
    ensures OnceEach(AppendPartition(a, flat[|flat| - 1].0, flat[|flat| - 1].1), flat)
  {
    hide Contains;
    var last := flat[|flat| - 1];
    assert Contains(flat, last.0) by { ContainsLast(flat); }
    if a != [] && a[|a| - 1].topic == last.0 { DealOn(a, flat); } else { DealFirst(a, flat); }
  }

  lemma ContainsLast(flat: seq<(Bytes, int)>)
    requires flat != []
    ensures Contains(flat, flat[|flat| - 1].0)
  {}

  /** Another partition of the topic that was dealt last. */
  lemma DealOn(a: seq<TopicPartitions>, flat: seq<(Bytes, int)>)
    requires flat != [] && OnceEach(a, flat) && a != [] && a[|a| - 1].topic == flat[|flat| - 1].0
    ensures OnceEach(AppendPartition(a, flat[|flat| - 1].0, flat[|flat| - 1].1), flat)
  {
    hide Contains;
    var a' := AppendPartition(a, flat[|flat| - 1].0, flat[|flat| - 1].1);
    assert |a'| == |a| && forall i :: 0 <= i < |a| ==> a'[i].topic == a[i].topic;
  }

  /** The first partition of its topic. */
  lemma DealFirst(a: seq<TopicPartitions>, flat: seq<(Bytes, int)>)
    requires flat != [] && OnceEach(a, flat) && Contains(flat, flat[|flat| - 1].0)
    requires a == [] || a[|a| - 1].topic != flat[|flat| - 1].0
    ensures OnceEach(AppendPartition(a, flat[|flat| - 1].0, flat[|flat| - 1].1), flat)
  {
    hide Contains;
  }

  /** A member is given each topic at most once. */
  lemma {:induction false} DealtOnceEach(m: Bytes, members: seq<Bytes>, flat: seq<(Bytes, int)>)
    requires members != [] && Grouped(flat)
    ensures OnceEach(Dealt(m, members, flat), flat)
  {
    hide AppendPartition;
    if flat != [] {
      var init := flat[..|flat| - 1];
      assert Grouped(init);
      DealtOnceEach(m, members, init);
      PassOver(Dealt(m, members, init), flat);
      DealIn(Dealt(m, members, init), flat);
    }
  }

  ghost predicate DistinctTopics(a: seq<TopicPartitions>) {
    forall i, j :: 0 <= i < j < |a| ==> a[i].topic != a[j].topic
  }

  /** What RoundRobin gives a member names each topic at most once. */
  lemma RoundRobinOnceEach(a: Assignments, topics: seq<Bytes>, members: seq<Bytes>, counts: Counts, m: Bytes)
    requires RoundRobinPlan(a, topics, members, counts)
    ensures DistinctTopics(Get(a, m))
  {
    hide Dealt, Flat, InOrder, Grouped, Contains;
    if members != [] {
      FlatGrouped(topics, counts);
      DealtOnceEach(m, members, Flat(topics, counts));
      assert Get(a, m) == Dealt(m, members, Flat(topics, counts));
    }
  }
}
