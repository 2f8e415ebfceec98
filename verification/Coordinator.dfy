/** The coordinator's methods, each refining one transition of one group. */
module Coordinator {
  import opened Lists
  import opened Wire
  import opened GroupModel

  function Digits(n: nat): (r: Bytes)
    ensures r != []
  {
    if n < 10 then [48 + n] else Digits(n / 10) + [48 + n % 10]
  }

  function Decimal(n: int): (r: Bytes)
    ensures r != []
  {
    if n < 0 then [45] + Digits(-n) else Digits(n)
  }

  /** "client-7", or "member-7" for a client without a name: never empty. */
  function MemberID(client: Bytes, n: int): (id: Bytes)
    ensures id != []
  {
    (if client == [] then [109, 101, 109, 98, 101, 114] else client) + [45] + Decimal(n)
  }

  predicate AllDigits(b: Bytes) { forall i :: 0 <= i < |b| ==> 48 <= b[i] <= 57 }

  lemma {:induction false} DigitsAre(n: nat)
    ensures AllDigits(Digits(n))
  {
    if n >= 10 { DigitsAre(n / 10); }
  }

  /** The number that a text of digits stands for. */
  function Value(b: Bytes): int {
    if b == [] then 0 else 10 * Value(b[..|b| - 1]) + b[|b| - 1] - 48
  }

  /** The digits of a number stand for it. */
  lemma {:induction false} DigitsRead(n: nat)
    ensures Value(Digits(n)) == n
  {
    var b := Digits(n);
    if n >= 10 {
      assert b[..|b| - 1] == Digits(n / 10);
      DigitsRead(n / 10);
    } else {
      assert b[..0] == [];
    }
  }

  /** The text after the last dash is determined by the whole. */
  lemma AfterTheDash(a: Bytes, x: Bytes, b: Bytes, y: Bytes)
    requires a + [45] + x == b + [45] + y && AllDigits(x) && AllDigits(y)
    ensures x == y
  {
    var whole := a + [45] + x;
    assert whole[|a|] == 45 && whole[|b|] == 45;
    assert forall i :: |a| < i < |whole| ==> whole[i] == x[i - |a| - 1];
    assert forall i :: |b| < i < |whole| ==> whole[i] == y[i - |b| - 1];
    assert |a| == |b|;
    assert x == whole[|a| + 1..] == y;
  }

  /** Ids generated from different counters differ, whoever the clients are. */
  lemma MemberIDsDiffer(client: Bytes, m: nat, client': Bytes, n: nat)
    requires m != n
    ensures MemberID(client, m) != MemberID(client', n)
  {
    hide Digits;
    if MemberID(client, m) == MemberID(client', n) {
      DigitsAre(m);
      DigitsAre(n);
      var name: Bytes := if client == [] then [109, 101, 109, 98, 101, 114] else client;
      var name': Bytes := if client' == [] then [109, 101, 109, 98, 101, 114] else client';
      AfterTheDash(name, Digits(m), name', Digits(n));
      DigitsRead(m);
      DigitsRead(n);
    }
  }

  function Of(groups: map<Bytes, Group>, id: Bytes): Group {
    if id in groups then groups[id] else Fresh
  }

  method Filter(order: seq<Bytes>, id: Bytes) returns (kept: seq<Bytes>)
    ensures kept == Without(order, id)
  {
    kept := [];
    for i := 0 to |order|
      invariant kept == Without(order[..i], id)
    {
      assert order[..i + 1][..i] == order[..i];
      if order[i] != id { kept := kept + [order[i]]; }
    }
    assert order[..|order|] == order;
  }

  class Coordinator {
    var groups: map<Bytes, Group>
    var nextMemberSeq: int

    ghost predicate Valid()
      reads this
    {
      forall id :: id in groups ==> WellFormed(groups[id])
    }

    constructor ()
      ensures Valid() && groups == map[] && nextMemberSeq == 0
    {
      groups, nextMemberSeq := map[], 0;
    }

    method Join(groupID: Bytes, client: Bytes, memberID: Bytes, timeout: int, offers: seq<Offer>) returns (id: Bytes)
      requires Valid()
      modifies this
      ensures Valid()
      ensures groups == old(groups)[groupID := GroupModel.Join(Of(old(groups), groupID), id, timeout, offers)]
      ensures memberID != [] ==> id == memberID && nextMemberSeq == old(nextMemberSeq)
      ensures memberID == [] ==>
              nextMemberSeq == Signed64(old(nextMemberSeq) + 1) && id == MemberID(client, nextMemberSeq)
    {
      hide WellFormed, Signed64, Digits;
      if groupID !in groups { groups := groups[groupID := Fresh]; }
      var g := groups[groupID];
      id := memberID;
      if |id| == 0 {
        nextMemberSeq := Signed64(nextMemberSeq + 1);
        id := MemberID(client, nextMemberSeq);
      }
      var assignment: Bytes := [];
      var order := g.joinOrder;
      if id in g.members { assignment := g.members[id].assignment; } else { order := order + [id]; }
      var member := Member(FirstName(offers), FirstMetadata(offers), assignment, timeout, None, None);
      var members := g.members[id := member];
      groups := groups[groupID := g.(members := members, joinOrder := order, phase := Preparing)];
      FreshIsGood();
      JoinKeeps(Of(old(groups), groupID), id, timeout, offers);
    }

    method CompleteJoin(groupID: Bytes)
      requires Valid()
      modifies this
      ensures Valid() && nextMemberSeq == old(nextMemberSeq)
      ensures groups == if groupID !in old(groups) then old(groups)
                        else old(groups)[groupID := GroupModel.CompleteJoin(old(groups)[groupID])]
    {
      hide WellFormed, GroupModel.CompleteJoin;
      if groupID !in groups { return; }
      var g := Complete(groups[groupID]);
      CompleteJoinKeeps(groups[groupID]);
      groups := groups[groupID := g];
    }

    method Sync(groupID: Bytes, id: Bytes, generation: int, sent: map<Bytes, Bytes>) returns (outcome: SyncOutcome)
      requires Valid()
      modifies this
      ensures Valid() && nextMemberSeq == old(nextMemberSeq)
      ensures outcome == GroupModel.Sync(Of(old(groups), groupID), id, generation, sent).1
      ensures var g := Of(old(groups), groupID);
              var known, current := id in g.members, generation == g.generation;
              && (outcome == Refused(ErrUnknownMemberID) <==> !known)
              && (outcome == Refused(ErrIllegalGeneration) <==> known && !current)
              && (outcome == Parked <==> known && current && id != g.leader && g.phase != Stable)
      ensures groups == if groupID !in old(groups) then old(groups)
                        else old(groups)[groupID := GroupModel.Sync(old(groups)[groupID], id, generation, sent).0]
    {
      hide WellFormed, Assigned, FannedOut;
      if groupID !in groups { return Refused(ErrUnknownMemberID); }
      var g := groups[groupID];
      SyncKeeps(g, id, generation, sent);
      if id !in g.members { return Refused(ErrUnknownMemberID); }
      if generation != g.generation { return Refused(ErrIllegalGeneration); }
      if id == g.leader {
        var members := Assign(g.members, sent);
        var fanned := FanOut(members, id);
        outcome := Replied(members[id].assignment);
        groups := groups[groupID := g.(members := fanned, phase := Stable)];
        return;
      }
      if g.phase == Stable { return Replied(g.members[id].assignment); }
      outcome := Parked;
    }

    method Heartbeat(groupID: Bytes, id: Bytes, generation: int) returns (error: int)
      requires Valid()
      ensures error == GroupModel.Heartbeat(Of(groups, groupID), id, generation)
      ensures var g := Of(groups, groupID);
              var known, prepares, current := id in g.members, g.phase == Preparing, generation == g.generation;
              && (error == ErrUnknownMemberID <==> !known)
              && (error == ErrRebalanceInProgress <==> known && prepares)
              && (error == ErrIllegalGeneration <==> known && !prepares && !current)
              && (error == ErrNone <==> known && !prepares && current)
    {
      if groupID !in groups { return ErrUnknownMemberID; }
      var g := groups[groupID];
      if id !in g.members { return ErrUnknownMemberID; }
      if g.phase == Preparing { return ErrRebalanceInProgress; }
      if generation != g.generation { return ErrIllegalGeneration; }
      error := ErrNone;
    }

    /** Leave; a session timer does the same and drops the error. */
    method Leave(groupID: Bytes, id: Bytes) returns (error: int)
      requires Valid()
      modifies this
      ensures Valid() && nextMemberSeq == old(nextMemberSeq)
      ensures error == if id in Of(old(groups), groupID).members then ErrNone else ErrUnknownMemberID
      ensures groups == if groupID !in old(groups) then old(groups)
                        else old(groups)[groupID := Remove(old(groups)[groupID], id)]
    {
      hide WellFormed, Without;
      if groupID !in groups { return ErrUnknownMemberID; }
      var g := groups[groupID];
      RemoveKeeps(g, id);
      if id !in g.members { return ErrUnknownMemberID; }
      var order := Filter(g.joinOrder, id);
      var leader := if g.leader == id then [] else g.leader;
      g := g.(members := g.members - {id}, joinOrder := order, leader := leader);
      if |g.members| == 0 { g := g.(phase := Empty, leader := [], protocol := []); }
      else if g.phase == Stable || g.phase == Completing { g := g.(phase := Preparing); }
      groups := groups[groupID := g];
      error := ErrNone;
    }
  }

  method Complete(g: Group) returns (h: Group)
    requires WellFormed(g)
    ensures h == CompleteJoin(g)
  {
    hide Signed32, Distinct, Results;
    if |g.joinOrder| == 0 { return g; }
    var first := g.joinOrder[0];
    h := g.(leader := first, protocol := g.members[first].protocol,
            generation := Signed32(g.generation + 1), phase := Completing);
    var listing := ListMembers(h);
    var members := SendAll(h, listing);
    h := h.(members := members, announced := h.announced + Results(h));
  }

  method ListMembers(g: Group) returns (listing: seq<JoinMember>)
    requires Listed(g)
    ensures listing == Listing(g)
  {
    listing := [];
    for i := 0 to |g.joinOrder|
      invariant listing == Listing(g)[..i]
    {
      var id := g.joinOrder[i];
      listing := listing + [JoinMember(id, g.members[id].metadata)];
    }
  }

  /** Each member's own result, offered without blocking, in join order. */
  method SendAll(e: Group, listing: seq<JoinMember>) returns (members: map<Bytes, Member>)
    requires Listed(e) && listing == Listing(e)
    ensures members == map id | id in e.members ::
            e.members[id].(awaitJoin := Send(e.members[id].awaitJoin, ResultFor(e, id)))
  {
    hide Listing;
    members := e.members;
    for i := 0 to |e.joinOrder|
      invariant members.Keys == e.members.Keys
      invariant forall id :: id in e.members ==>
        members[id] == if id !in e.joinOrder[..i] then e.members[id]
                       else e.members[id].(awaitJoin := Send(e.members[id].awaitJoin, ResultFor(e, id)))
    {
      var id := e.joinOrder[i];
      assert id !in e.joinOrder[..i] && e.joinOrder[..i + 1] == e.joinOrder[..i] + [id];
      var result := JoinResult(e.generation, e.protocol, e.leader, id, []);
      if id == e.leader { result := result.(members := listing); }
      if members[id].awaitJoin.None? { members := members[id := members[id].(awaitJoin := Some(result))]; }
    }
    assert e.joinOrder[..|e.joinOrder|] == e.joinOrder;
  }

  method Assign(before: map<Bytes, Member>, sent: map<Bytes, Bytes>) returns (members: map<Bytes, Member>)
    ensures members == Assigned(before, sent) && members.Keys == before.Keys
  {
    members := before;
    var left := sent.Keys;
    while left != {}
      invariant left <= sent.Keys && members.Keys == before.Keys
      invariant forall id :: id in before ==>
        members[id] == if id in sent && id !in left then before[id].(assignment := sent[id]) else before[id]
      decreases left
    {
      var id :| id in left;
      if id in members { members := members[id := members[id].(assignment := sent[id])]; }
      left := left - {id};
    }
  }

  method FanOut(before: map<Bytes, Member>, caller: Bytes) returns (members: map<Bytes, Member>)
    ensures members == FannedOut(before, caller)
  {
    members := before;
    var left := before.Keys;
    while left != {}
      invariant left <= before.Keys && members.Keys == before.Keys
      invariant forall id :: id in before ==>
        members[id] == if id == caller || id in left then before[id]
                       else before[id].(awaitSync := Send(before[id].awaitSync, before[id].assignment))
      decreases left
    {
      var id :| id in left;
      if id != caller && members[id].awaitSync.None? {
        members := members[id := members[id].(awaitSync := Some(members[id].assignment))];
      }
      left := left - {id};
    }
  }
}
