/** The consumer-group state machine, one group at a time, as values. */
module GroupModel {
  import opened Lists
  import opened Wire

  datatype Phase = Empty | Preparing | Completing | Stable
  datatype Offer = Offer(name: Bytes, metadata: Bytes)
  datatype JoinMember = JoinMember(id: Bytes, metadata: Bytes)
  datatype JoinResult = JoinResult(generation: int, protocol: Bytes, leader: Bytes, member: Bytes,
                                   members: seq<JoinMember>)

  /** awaitJoin and awaitSync are channels of capacity one: None while empty. */
  datatype Member = Member(protocol: Bytes, metadata: Bytes, assignment: Bytes, sessionTimeout: int,
                           awaitJoin: Option<JoinResult>, awaitSync: Option<Bytes>)

  /** `announced` lists every result that completeJoin has built, sent or dropped. */
  datatype Group = Group(phase: Phase, generation: int, leader: Bytes, protocol: Bytes,
                         members: map<Bytes, Member>, joinOrder: seq<Bytes>, announced: seq<JoinResult>)

  const ErrNone := 0
  const ErrIllegalGeneration := 22
  const ErrUnknownMemberID := 25
  const ErrRebalanceInProgress := 27

  const Fresh := Group(Empty, 0, [], [], map[], [], [])

  // ----- the transitions -----

  function FirstName(offers: seq<Offer>): Bytes { if offers == [] then [] else offers[0].name }

  function FirstMetadata(offers: seq<Offer>): Bytes { if offers == [] then [] else offers[0].metadata }

  function Join(g: Group, id: Bytes, timeout: int, offers: seq<Offer>): Group {
    var assignment := if id in g.members then g.members[id].assignment else [];
    var member := Member(FirstName(offers), FirstMetadata(offers), assignment, timeout, None, None);
    g.(members := g.members[id := member],
       joinOrder := if id in g.members then g.joinOrder else g.joinOrder + [id],
       phase := Preparing)
  }

  ghost predicate Listed(g: Group) {
    Distinct(g.joinOrder) && forall id :: id in g.joinOrder <==> id in g.members
  }

  function Elected(g: Group): Group
    requires Listed(g) && g.joinOrder != []
  {
    var first := g.joinOrder[0];
    g.(leader := first, protocol := g.members[first].protocol,
       generation := Signed32(g.generation + 1), phase := Completing)
  }

  function Listing(g: Group): seq<JoinMember>
    requires Listed(g)
  {
    seq(|g.joinOrder|, i requires 0 <= i < |g.joinOrder| =>
      JoinMember(g.joinOrder[i], g.members[g.joinOrder[i]].metadata))
  }

  function ResultFor(g: Group, id: Bytes): JoinResult
    requires Listed(g)
  {
    JoinResult(g.generation, g.protocol, g.leader, id, if id == g.leader then Listing(g) else [])
  }

  function Results(g: Group): seq<JoinResult>
    requires Listed(g)
  {
    seq(|g.joinOrder|, i requires 0 <= i < |g.joinOrder| => ResultFor(g, g.joinOrder[i]))
  }

  /** A non-blocking send: a full channel keeps what it holds. */
  function Send<T>(channel: Option<T>, x: T): Option<T> { if channel.None? then Some(x) else channel }

  function CompleteJoin(g: Group): Group
    requires Listed(g)
  {
    if g.joinOrder == [] then g
    else
      var e := Elected(g);
      e.(members := map id | id in e.members ::
        e.members[id].(awaitJoin := Send(e.members[id].awaitJoin, ResultFor(e, id))),
         announced := e.announced + Results(e))
  }

  datatype SyncOutcome = Replied(assignment: Bytes) | Refused(error: int) | Parked

  function Assigned(members: map<Bytes, Member>, sent: map<Bytes, Bytes>): map<Bytes, Member> {
    map id | id in members :: if id in sent then members[id].(assignment := sent[id]) else members[id]
  }

  function FannedOut(members: map<Bytes, Member>, caller: Bytes): map<Bytes, Member> {
    map id | id in members ::
      if id == caller then members[id]
      else members[id].(awaitSync := Send(members[id].awaitSync, members[id].assignment))
  }

  function Sync(g: Group, id: Bytes, generation: int, sent: map<Bytes, Bytes>): (Group, SyncOutcome) {
    if id !in g.members then (g, Refused(ErrUnknownMemberID))
    else if generation != g.generation then (g, Refused(ErrIllegalGeneration))
    else if id == g.leader then
      var members := Assigned(g.members, sent);
      (g.(members := FannedOut(members, id), phase := Stable), Replied(members[id].assignment))
    else if g.phase == Stable then (g, Replied(g.members[id].assignment))
    else (g, Parked)
  }

  function Heartbeat(g: Group, id: Bytes, generation: int): int {
    if id !in g.members then ErrUnknownMemberID
    else if g.phase == Preparing then ErrRebalanceInProgress
    else if generation != g.generation then ErrIllegalGeneration
    else ErrNone
  }

  function Without(order: seq<Bytes>, id: Bytes): seq<Bytes> {
    if order == [] then []
    else
      var n := |order| - 1;
      if order[n] != id then Without(order[..n], id) + [order[n]] else Without(order[..n], id)
  }

  function Rebalanced(g: Group): Group {
    if g.members == map[] then g.(phase := Empty, leader := [], protocol := [])
    else if g.phase == Stable || g.phase == Completing then g.(phase := Preparing)
    else g
  }

  /** Leave, and a session that times out. */
  function Remove(g: Group, id: Bytes): Group {
    if id !in g.members then g
    else
      Rebalanced(g.(members := g.members - {id}, joinOrder := Without(g.joinOrder, id),
                    leader := if g.leader == id then [] else g.leader))
  }

  // ----- the invariant -----

  ghost predicate WellFormed(g: Group) {
    && Listed(g)
    && (g.phase == Empty <==> g.members == map[])
    && [] !in g.members
    && (g.leader != [] ==> g.leader in g.members && g.joinOrder != [] && g.joinOrder[0] == g.leader)
    && (g.phase == Completing || g.phase == Stable ==> g.leader in g.members)
  }

  ghost predicate Names(members: seq<JoinMember>, id: Bytes) {
    exists i :: 0 <= i < |members| && members[i].id == id
  }

  /** Two results of one generation name one leader and one protocol; only the
      leader's lists the members, all of them. */
  ghost predicate Agree(a: JoinResult, b: JoinResult) {
    a.generation == b.generation ==>
      && a.leader == b.leader && a.protocol == b.protocol
      && (if a.member == a.leader then Names(a.members, b.member) else a.members == [])
  }

  ghost predicate Announcements(rs: seq<JoinResult>, generation: int) {
    && (forall i :: 0 <= i < |rs| ==> rs[i].generation <= generation)
    && (forall i, j :: 0 <= i < |rs| && 0 <= j < |rs| ==> Agree(rs[i], rs[j]))
    && (forall i, j :: 0 <= i < j < |rs| && rs[i].generation == rs[j].generation ==> rs[i].member != rs[j].member)
  }

  lemma {:induction false} WithoutIs(order: seq<Bytes>, id: Bytes)
    ensures forall x :: x in Without(order, id) <==> x in order && x != id
    ensures Distinct(order) ==> Distinct(Without(order, id))
  {
    if order != [] {
      var n := |order| - 1;
      WithoutIs(order[..n], id);
      assert order == order[..n] + [order[n]];
      if Distinct(order) { assert order[n] !in order[..n]; }
    }
  }

  lemma {:induction false} WithoutFirst(order: seq<Bytes>, id: Bytes)
    requires order != [] && order[0] != id
    ensures Without(order, id) != [] && Without(order, id)[0] == order[0]
  {
    if |order| > 1 { WithoutFirst(order[..|order| - 1], id); }
  }

  lemma JoinKeeps(g: Group, id: Bytes, timeout: int, offers: seq<Offer>)
    requires WellFormed(g) && id != []
    ensures WellFormed(Join(g, id, timeout, offers))
  {
    var h := Join(g, id, timeout, offers);
    assert id in h.members;
  }

  lemma RemoveKeeps(g: Group, id: Bytes)
    requires WellFormed(g)
    ensures WellFormed(Remove(g, id))
  {
    hide Without, Distinct;
    if id in g.members {
      WithoutIs(g.joinOrder, id);
      if g.leader != [] && g.leader != id { WithoutFirst(g.joinOrder, id); }
      var left := g.(members := g.members - {id}, joinOrder := Without(g.joinOrder, id),
                     leader := if g.leader == id then [] else g.leader);
      assert Listed(left);
      RebalancedKeeps(left);
    }
  }

  lemma RebalancedKeeps(g: Group)
    requires Listed(g) && [] !in g.members && (g.phase == Empty ==> g.members == map[])
    requires g.leader != [] ==> g.leader in g.members && g.joinOrder != [] && g.joinOrder[0] == g.leader
    ensures WellFormed(Rebalanced(g))
  {
    hide Distinct;
  }

  lemma SyncKeeps(g: Group, id: Bytes, generation: int, sent: map<Bytes, Bytes>)
    requires WellFormed(g)
    ensures WellFormed(Sync(g, id, generation, sent).0)
  {
    var h := Sync(g, id, generation, sent).0;
    assert h.members.Keys == g.members.Keys;
    assert h.members == map[] <==> h.members.Keys == {};
    assert g.members == map[] <==> g.members.Keys == {};
  }

  lemma CompleteJoinKeeps(g: Group)
    requires WellFormed(g)
    ensures WellFormed(CompleteJoin(g))
  {
    hide Signed32;
    var h := CompleteJoin(g);
    assert h.members.Keys == g.members.Keys;
    if g.joinOrder != [] { assert g.joinOrder[0] in h.members; }
  }

  lemma ResultsAgree(e: Group)
    requires Listed(e) && e.joinOrder != []
    ensures Announcements(Results(e), e.generation)
  {
    var rs := Results(e);
    forall i, j | 0 <= i < |rs| && 0 <= j < |rs|
      ensures Agree(rs[i], rs[j])
    {
      assert Listing(e)[j].id == e.joinOrder[j];
    }
  }

  lemma AnnouncementsJoin(earlier: seq<JoinResult>, before: int, later: seq<JoinResult>, after: int)
    requires before < after && Announcements(earlier, before) && Announcements(later, after)
    requires forall i :: 0 <= i < |later| ==> later[i].generation == after
    ensures Announcements(earlier + later, after)
  {
    var rs := earlier + later;
    forall i | 0 <= i < |rs| ensures rs[i] == (if i < |earlier| then earlier[i] else later[i - |earlier|]) {}
  }

  /** Completing a join starts a later generation exactly while the counter has room. */
  lemma GenerationGrows(g: Group)
    requires Listed(g) && g.joinOrder != [] && IsInt32(g.generation)
    ensures CompleteJoin(g).generation > g.generation <==> g.generation != TwoTo31 - 1
    ensures g.generation != TwoTo31 - 1 ==> CompleteJoin(g).generation == g.generation + 1
    ensures g.generation == TwoTo31 - 1 ==> CompleteJoin(g).generation == -TwoTo31
  {
    hide ResultFor, Results, Distinct;
  }

  // ----- runs -----

  datatype Op =
    | JoinOp(id: Bytes, timeout: int, offers: seq<Offer>)
    | SyncOp(id: Bytes, generation: int, sent: map<Bytes, Bytes>)
    | HeartbeatOp(id: Bytes, generation: int)
    | RemoveOp(id: Bytes)       // Leave, or the session timer fires
    | CompleteOp                // a join timer fires, current or stale
    | TakeJoin(id: Bytes)       // a parked Join receives
    | TakeSync(id: Bytes)       // a parked Sync receives; the leader's own Sync never parks

  ghost function Step(g: Group, op: Op): Group
    requires WellFormed(g)
  {
    match op
    case JoinOp(id, timeout, offers) => Join(g, id, timeout, offers)
    case SyncOp(id, generation, sent) => Sync(g, id, generation, sent).0
    case HeartbeatOp(_, _) => g
    case RemoveOp(id) => Remove(g, id)
    case CompleteOp => CompleteJoin(g)
    case TakeJoin(id) =>
      if id !in g.members then g else g.(members := g.members[id := g.members[id].(awaitJoin := None)])
    case TakeSync(id) =>
      if id !in g.members || id == g.leader then g
      else g.(members := g.members[id := g.members[id].(awaitSync := None)])
  }

  /** In shape, and the announcements so far agree. */
  ghost predicate Good(g: Group) {
    WellFormed(g) && 0 <= g.generation < TwoTo31 && Announcements(g.announced, g.generation)
  }

  /** Every member joins under a name of its own. */
  predicate Named(op: Op) { op.JoinOp? ==> op.id != [] }

  lemma StepShaped(g: Group, op: Op)
    requires WellFormed(g) && Named(op)
    ensures WellFormed(Step(g, op))
  {
    hide Signed32, Without;
    match op
    case JoinOp(id, timeout, offers) => JoinKeeps(g, id, timeout, offers);
    case SyncOp(id, generation, sent) => SyncKeeps(g, id, generation, sent);
    case HeartbeatOp(_, _) =>
    case RemoveOp(id) => RemoveKeeps(g, id);
    case CompleteOp => CompleteJoinKeeps(g);
    case TakeJoin(_) =>
    case TakeSync(_) =>
  }

  /** The step completes the join of a group that has members. */
  ghost predicate Completes(g: Group, op: Op) { op == CompleteOp && g.members != map[] }

  /** A step that completes no join, or whose generation has a successor, keeps the announcements in agreement. */
  lemma StepKeeps(g: Group, op: Op)
    requires Good(g) && Named(op) && (Completes(g, op) ==> g.generation < TwoTo31 - 1)
    ensures Good(Step(g, op))
    ensures Step(g, op).generation == if Completes(g, op) then g.generation + 1 else g.generation
  {
    hide WellFormed, Announcements, Signed32, Without;
    StepShaped(g, op);
    if op == CompleteOp { CompleteKeeps(g); }
  }

  lemma CompleteKeeps(g: Group)
    requires Good(g) && (g.members != map[] ==> g.generation < TwoTo31 - 1)
    ensures Good(CompleteJoin(g))
    ensures CompleteJoin(g).generation == if g.members != map[] then g.generation + 1 else g.generation
  {
    hide Announcements, Signed32;
    CompleteJoinKeeps(g);
    if g.joinOrder != [] {
      GenerationGrows(g);
      var e := Elected(g);
      ResultsAgree(e);
      AnnouncementsJoin(g.announced, g.generation, Results(e), e.generation);
      assert g.joinOrder[0] in g.members;
    }
  }

  ghost predicate AllNamed(ops: seq<Op>) { forall i :: 0 <= i < |ops| ==> Named(ops[i]) }

  /** Every run, stale timers included, keeps the group in shape. */
  ghost function Run(g: Group, ops: seq<Op>): (h: Group)
    requires WellFormed(g) && AllNamed(ops)
    ensures WellFormed(h)
  {
    if ops == [] then g
    else
      var n := |ops| - 1;
      var before := Run(g, ops[..n]);
      StepShaped(before, ops[n]);
      Step(before, ops[n])
  }

  /** How many joins a run completes. */
  ghost function Completions(g: Group, ops: seq<Op>): nat
    requires WellFormed(g) && AllNamed(ops)
  {
    if ops == [] then 0
    else
      var n := |ops| - 1;
      Completions(g, ops[..n]) + if Completes(Run(g, ops[..n]), ops[n]) then 1 else 0
  }

  /** While the int32 generation has room, each generation announces one leader and
      one protocol, and the generation counts the completed joins. */
  lemma {:induction false} RunKeeps(g: Group, ops: seq<Op>)
    requires Good(g) && AllNamed(ops) && g.generation + Completions(g, ops) < TwoTo31
    ensures Good(Run(g, ops)) && Run(g, ops).generation == g.generation + Completions(g, ops)
  {
    hide WellFormed, Announcements, Step;
    if ops != [] {
      var n := |ops| - 1;
      RunKeeps(g, ops[..n]);
      StepKeeps(Run(g, ops[..n]), ops[n]);
    }
  }

  /** Step k of a run does not lower the generation. */
  ghost predicate RisesAt(g: Group, ops: seq<Op>, k: nat)
    requires WellFormed(g) && AllNamed(ops) && k < |ops|
  {
    Run(g, ops[..k]).generation <= Run(g, ops[..k + 1]).generation
  }

  ghost predicate AllRise(g: Group, ops: seq<Op>)
    requires WellFormed(g) && AllNamed(ops)
  {
    forall k :: 0 <= k < |ops| ==> RisesAt(g, ops, k)
  }

  lemma RisesSame(g: Group, ops: seq<Op>, n: nat, k: nat)
    requires WellFormed(g) && AllNamed(ops) && k < n <= |ops|
    ensures RisesAt(g, ops[..n], k) <==> RisesAt(g, ops, k)
  {
    hide WellFormed, Run;
    assert ops[..n][..k] == ops[..k] && ops[..n][..k + 1] == ops[..k + 1];
  }

  lemma LastRiseIs(g: Group, ops: seq<Op>)
    requires WellFormed(g) && AllNamed(ops) && ops != []
    ensures RisesAt(g, ops, |ops| - 1) <==> Run(g, ops[..|ops| - 1]).generation <= Run(g, ops).generation
  {
    hide WellFormed, Run;
    assert ops[..|ops| - 1 + 1] == ops;
  }

  lemma AllRiseLast(g: Group, ops: seq<Op>)
    requires WellFormed(g) && AllNamed(ops) && ops != []
    ensures var n := |ops| - 1;
            AllRise(g, ops) <==> AllRise(g, ops[..n]) && Run(g, ops[..n]).generation <= Run(g, ops).generation
  {
    hide WellFormed, Run, RisesAt;
    var n := |ops| - 1;
    LastRiseIs(g, ops);
    forall k | 0 <= k < n ensures RisesAt(g, ops[..n], k) <==> RisesAt(g, ops, k) { RisesSame(g, ops, n, k); }
  }

  /** From an unused group id, over every run: generations never decrease if and
      only if the run completes fewer than 2^31 joins. */
  lemma {:induction false} GenerationsRiseIff(ops: seq<Op>)
    requires AllNamed(ops)
    ensures Good(Fresh) && (AllRise(Fresh, ops) <==> Completions(Fresh, ops) < TwoTo31)
  {
    FreshIsGood();
    hide WellFormed, Announcements, Step, AllRise;
    if ops == [] { NothingFalls(Fresh); }
    else {
      var n := |ops| - 1;
      GenerationsRiseIff(ops[..n]);
      AllRiseLast(Fresh, ops);
      if Completions(Fresh, ops[..n]) < TwoTo31 {
        RunKeeps(Fresh, ops[..n]);
        LastRises(Run(Fresh, ops[..n]), ops[n]);
      }
    }
  }

  lemma NothingFalls(g: Group)
    requires WellFormed(g)
    ensures AllRise(g, [])
  {}

  lemma LastRises(g: Group, op: Op)
    requires Good(g) && Named(op)
    ensures g.generation <= Step(g, op).generation <==> !(Completes(g, op) && g.generation == TwoTo31 - 1)
  {
    hide WellFormed, Announcements, Signed32, Without;
    if Completes(g, op) && g.generation == TwoTo31 - 1 {
      Populated(g);
      GenerationGrows(g);
    } else {
      StepKeeps(g, op);
    }
  }

  lemma Populated(g: Group)
    requires WellFormed(g) && g.members != map[]
    ensures Listed(g) && g.joinOrder != []
  {
    var id :| id in g.members;
    assert id in g.joinOrder;
  }

  // ----- one generation's assignments -----

  /** What a step hands to the member it serves: a Sync's reply, at once or through its channel. */
  ghost function Reply(g: Group, op: Op): Option<Bytes>
    requires WellFormed(g)
  {
    match op
    case SyncOp(id, generation, sent) =>
      var outcome := Sync(g, id, generation, sent).1;
      if outcome.Replied? then Some(outcome.assignment) else None
    case TakeSync(id) => if id in g.members && id != g.leader then g.members[id].awaitSync else None
    case _ => None
  }

  /** Membership holds and whatever the leader syncs is `sent`; a stale join timer may still fire. */
  predicate Quiet(op: Op, leader: Bytes, sent: map<Bytes, Bytes>) {
    match op
    case SyncOp(id, _, assignments) => id == leader ==> assignments == sent
    case HeartbeatOp(_, _) => true
    case CompleteOp => true
    case TakeJoin(_) => true
    case TakeSync(_) => true
    case _ => false
  }

  ghost predicate Silent(g: Group) { forall id :: id in g.members ==> g.members[id].awaitSync == None }

  /** No Sync channel but the leader's, which nobody reads, holds anything but the leader's word. */
  ghost predicate Clean(g: Group, sent: map<Bytes, Bytes>) {
    && (forall id :: id in g.members ==> id in sent)
    && CleanBut(g.members, g.leader, sent)
  }

  ghost predicate CleanBut(members: map<Bytes, Member>, leader: Bytes, sent: map<Bytes, Bytes>) {
    forall id :: id in members && id != leader && id in sent ==>
      members[id].awaitSync == None || members[id].awaitSync == Some(sent[id])
  }

  ghost predicate Holds(members: map<Bytes, Member>, leader: Bytes, sent: map<Bytes, Bytes>) {
    && (forall id :: id in members ==> id in sent && members[id].assignment == sent[id])
    && CleanBut(members, leader, sent)
  }

  ghost predicate Window(g: Group, start: Group, sent: map<Bytes, Bytes>) {
    && WellFormed(g) && g.leader == start.leader != [] && g.members.Keys == start.members.Keys
    && ((g.phase == Completing && Clean(g, sent)) || (g.phase == Stable && Holds(g.members, g.leader, sent)))
  }

  lemma QuietStep(g: Group, start: Group, sent: map<Bytes, Bytes>, op: Op)
    requires Window(g, start, sent) && Quiet(op, start.leader, sent)
    ensures Window(Step(g, op), start, sent)
    ensures Reply(g, op).Some? ==> op.id in start.members && Reply(g, op).value == sent[op.id]
  {
    hide Listed, Sync, CompleteJoin, WellFormed, Window;
    if op.SyncOp? { QuietSync(g, start, sent, op.id, op.generation, op.sent); }
    else if op == CompleteOp { QuietComplete(g, start, sent); }
    else { QuietTake(g, start, sent, op); }
  }

  lemma QuietTake(g: Group, start: Group, sent: map<Bytes, Bytes>, op: Op)
    requires Window(g, start, sent) && (op.TakeJoin? || op.TakeSync? || op.HeartbeatOp?)
    ensures Window(Step(g, op), start, sent)
    ensures Reply(g, op).Some? ==> op.id in start.members && Reply(g, op).value == sent[op.id]
  {
    hide Listed, WellFormed, CleanBut;
    TakeKeeps(g, op);
    TakeThins(g, op);
    ThinIsClean(g.members, Step(g, op).members, g.leader, sent);
    if op.TakeSync? && Reply(g, op).Some? { ChannelIsClean(g.members, g.leader, sent, op.id); }
  }

  /** The same members with the same assignments, some Sync channels emptied. */
  ghost predicate Thins(members: map<Bytes, Member>, members': map<Bytes, Member>) {
    && members'.Keys == members.Keys
    && forall id :: id in members ==>
         && members'[id].assignment == members[id].assignment
         && (members'[id].awaitSync == members[id].awaitSync || members'[id].awaitSync == None)
  }

  lemma TakeThins(g: Group, op: Op)
    requires WellFormed(g) && (op.TakeJoin? || op.TakeSync? || op.HeartbeatOp?)
    ensures var h := Step(g, op); Thins(g.members, h.members) && h.leader == g.leader && h.phase == g.phase
  {
    hide WellFormed, Listed, CompleteJoin, Sync, Remove;
  }

  lemma ThinIsClean(members: map<Bytes, Member>, members': map<Bytes, Member>, leader: Bytes, sent: map<Bytes, Bytes>)
    requires Thins(members, members')
    ensures CleanBut(members, leader, sent) ==> CleanBut(members', leader, sent)
  {}

  lemma ChannelIsClean(members: map<Bytes, Member>, leader: Bytes, sent: map<Bytes, Bytes>, id: Bytes)
    requires CleanBut(members, leader, sent) && id in members && id != leader && id in sent
    ensures members[id].awaitSync == None || members[id].awaitSync == Some(sent[id])
  {}

  /** A stale join timer elects the same leader again and touches no Sync channel. */
  lemma QuietComplete(g: Group, start: Group, sent: map<Bytes, Bytes>)
    requires Window(g, start, sent)
    ensures Window(CompleteJoin(g), start, sent)
  {
    hide ResultFor, Results, Distinct, Signed32;
    CompleteJoinKeeps(g);
    assert CompleteJoin(g).members.Keys == g.members.Keys;
  }

  lemma QuietSync(g: Group, start: Group, sent: map<Bytes, Bytes>, id: Bytes, generation: int,
                  assignments: map<Bytes, Bytes>)
    requires Window(g, start, sent) && (id == start.leader ==> assignments == sent)
    ensures Window(Sync(g, id, generation, assignments).0, start, sent)
    ensures var outcome := Sync(g, id, generation, assignments).1;
            outcome.Replied? ==> id in start.members && outcome.assignment == sent[id]
  {
    hide Listed, Assigned, FannedOut;
    SyncKeeps(g, id, generation, assignments);
    if id == g.leader { LeaderSyncHolds(g, sent, id); }
  }

  /** Every channel but the leader's holds the leader's word. */
  ghost predicate Filled(members: map<Bytes, Member>, leader: Bytes, sent: map<Bytes, Bytes>) {
    forall id :: id in members && id != leader ==> id in sent && members[id].awaitSync == Some(sent[id])
  }

  lemma LeaderSyncHolds(g: Group, sent: map<Bytes, Bytes>, id: Bytes)
    requires (Clean(g, sent) || Holds(g.members, g.leader, sent)) && id in g.members && id == g.leader
    ensures Holds(FannedOut(Assigned(g.members, sent), id), id, sent)
    ensures Filled(FannedOut(Assigned(g.members, sent), id), id, sent)
    ensures FannedOut(Assigned(g.members, sent), id).Keys == g.members.Keys
    ensures id in Assigned(g.members, sent) && Assigned(g.members, sent)[id].assignment == sent[id]
  {
  }

  lemma TakeKeeps(g: Group, op: Op)
    requires WellFormed(g) && (op.TakeJoin? || op.TakeSync? || op.HeartbeatOp?)
    ensures WellFormed(Step(g, op)) && Step(g, op).members.Keys == g.members.Keys
  {}

  ghost predicate AllQuiet(ops: seq<Op>, leader: Bytes, sent: map<Bytes, Bytes>) {
    forall i :: 0 <= i < |ops| ==> Quiet(ops[i], leader, sent)
  }

  lemma {:induction false} RepliesAreSent(g: Group, sent: map<Bytes, Bytes>, ops: seq<Op>, op: Op)
    requires WellFormed(g) && g.phase == Completing && Clean(g, sent)
    requires AllQuiet(ops + [op], g.leader, sent)
    ensures AllNamed(ops) && Window(Run(g, ops), g, sent)
    ensures Reply(Run(g, ops), op).Some? ==> op.id in g.members && Reply(Run(g, ops), op).value == sent[op.id]
  {
    Led(g);
    hide Step, WellFormed, Reply, Clean;
    forall i | 0 <= i < |ops| ensures Named(ops[i]) && Quiet(ops[i], g.leader, sent) {
      assert (ops + [op])[i] == ops[i];
    }
    assert (ops + [op])[|ops|] == op;
    if ops != [] {
      var n := |ops| - 1;
      assert forall i :: 0 <= i < |ops| ==> (ops[..n] + [ops[n]])[i] == (ops + [op])[i];
      RepliesAreSent(g, sent, ops[..n], ops[n]);
      QuietStep(Run(g, ops[..n]), g, sent, ops[n]);
    }
    QuietStep(Run(g, ops), g, sent, op);
  }

  lemma Led(g: Group)
    requires WellFormed(g) && g.phase == Completing
    ensures g.leader != []
  {}

  /** Some quiet run of generation `g` hands `b` to the member that `op` serves. */
  ghost predicate Delivered(g: Group, sent: map<Bytes, Bytes>, ops: seq<Op>, op: Op, b: Bytes)
    requires WellFormed(g)
  {
    && AllQuiet(ops + [op], g.leader, sent) && AllNamed(ops)
    && Reply(Run(g, ops), op) == Some(b)
  }

  ghost predicate OnlyTheLeadersWord(g: Group, sent: map<Bytes, Bytes>)
    requires WellFormed(g)
  {
    forall ops, op, b :: Delivered(g, sent, ops, op, b) ==>
      (op.SyncOp? || op.TakeSync?) && op.id in sent && b == sent[op.id]
  }

  /** Every member hears the leader's word and nothing else exactly when the
      generation opens with clean channels. */
  lemma LeadersWordIff(g: Group, sent: map<Bytes, Bytes>)
    requires WellFormed(g) && g.phase == Completing && g.members.Keys <= sent.Keys
    ensures OnlyTheLeadersWord(g, sent) <==> Clean(g, sent)
  {
    hide WellFormed;
    if Clean(g, sent) {
      forall ops, op, b | Delivered(g, sent, ops, op, b)
        ensures (op.SyncOp? || op.TakeSync?) && op.id in sent && b == sent[op.id]
      {
        RepliesAreSent(g, sent, ops, op);
      }
    } else {
      var id :| id in g.members && id != g.leader && id in sent &&
                !(g.members[id].awaitSync == None || g.members[id].awaitSync == Some(sent[id]));
      HearsStale(g, sent, id);
    }
  }

  /** The member's Sync parks, and receives what was left in its channel. */
  lemma HearsStale(g: Group, sent: map<Bytes, Bytes>, id: Bytes)
    requires WellFormed(g) && g.phase == Completing
    requires id in g.members && id != g.leader && g.members[id].awaitSync.Some?
    ensures Delivered(g, sent, [SyncOp(id, g.generation, map[])], TakeSync(id), g.members[id].awaitSync.value)
  {
    var ops := [SyncOp(id, g.generation, map[])];
    assert ops[..0] == [] && Run(g, []) == g;
    assert Run(g, ops) == Step(Run(g, ops[..0]), ops[0]) == g;
  }

  /** The leader syncs, for the generation it is in. */
  predicate LeaderSyncs(g: Group, op: Op) {
    op.SyncOp? && op.id == g.leader && op.id in g.members && op.generation == g.generation
  }

  /** Step i is the leader's Sync, and no timer fires after it. */
  ghost predicate SyncedAt(g: Group, ops: seq<Op>, i: nat)
    requires WellFormed(g) && AllNamed(ops) && i < |ops|
  {
    LeaderSyncs(Run(g, ops[..i]), ops[i]) && forall j :: i < j < |ops| ==> ops[j] != CompleteOp
  }

  /** After the leader's Sync, every member's Sync of that generation is answered at once. */
  lemma {:induction false} EveryoneIsServed(g: Group, sent: map<Bytes, Bytes>, ops: seq<Op>, i: nat, op: Op)
    requires WellFormed(g) && g.phase == Completing && Clean(g, sent)
    requires AllQuiet(ops + [op], g.leader, sent) && AllNamed(ops) && i < |ops| && SyncedAt(g, ops, i)
    ensures Run(g, ops).phase == Stable
    ensures op.SyncOp? && op.id in g.members && op.generation == Run(g, ops).generation ==> Reply(Run(g, ops), op).Some?
  {
    hide Step, WellFormed, Clean, Holds;
    RepliesAreSent(g, sent, ops, op);
    var n := |ops| - 1;
    var before := Run(g, ops[..n]);
    assert forall k :: 0 <= k < |ops| ==> (ops[..n] + [ops[n]])[k] == (ops + [op])[k];
    RepliesAreSent(g, sent, ops[..n], ops[n]);
    assert Quiet((ops + [op])[n], g.leader, sent);
    if i < n {
      assert ops[..n][..i] == ops[..i] && SyncedAt(g, ops[..n], i);
      EveryoneIsServed(g, sent, ops[..n], i, ops[n]);
    }
    QuietPhase(before, g, sent, ops[n]);
  }

  lemma QuietPhase(g: Group, start: Group, sent: map<Bytes, Bytes>, op: Op)
    requires Window(g, start, sent) && Quiet(op, start.leader, sent)
    ensures LeaderSyncs(g, op) ==> Step(g, op).phase == Stable
    ensures g.phase == Stable && op != CompleteOp ==> Step(g, op).phase == Stable
  {
    hide Listed, Assigned, FannedOut;
  }

  /** Nobody receives for the member after step i. */
  predicate NotTaken(ops: seq<Op>, i: nat, id: Bytes) {
    forall j :: i < j < |ops| ==> ops[j] != TakeSync(id)
  }

  /** From the leader's Sync on, every other member's channel holds the leader's
      word until it is received: whoever parked before is woken with it. */
  lemma {:induction false} ParkedAreWoken(g: Group, sent: map<Bytes, Bytes>, ops: seq<Op>, i: nat, id: Bytes)
    requires WellFormed(g) && g.phase == Completing && Clean(g, sent) && id in g.members && id != g.leader
    requires AllQuiet(ops, g.leader, sent) && AllNamed(ops) && i < |ops|
    requires LeaderSyncs(Run(g, ops[..i]), ops[i]) && NotTaken(ops, i, id)
    ensures Reply(Run(g, ops), TakeSync(id)) == Some(sent[id])
  {
    hide Step, WellFormed, Clean, Holds;
    var n := |ops| - 1;
    assert ops[..n] + [ops[n]] == ops;
    RepliesAreSent(g, sent, ops[..n], ops[n]);
    var before := Run(g, ops[..n]);
    if i < n {
      assert ops[..n][..i] == ops[..i] && NotTaken(ops[..n], i, id);
      ParkedAreWoken(g, sent, ops[..n], i, id);
      StaysFilled(before, g, sent, ops[n], id);
    } else {
      SyncFills(before, g, sent, ops[n], id);
    }
  }

  lemma SyncFills(g: Group, start: Group, sent: map<Bytes, Bytes>, op: Op, id: Bytes)
    requires Window(g, start, sent) && Quiet(op, start.leader, sent) && LeaderSyncs(g, op)
    requires id in g.members && id != g.leader
    ensures WellFormed(Step(g, op)) && Reply(Step(g, op), TakeSync(id)) == Some(sent[id])
  {
    hide Listed, Assigned, FannedOut;
    SyncKeeps(g, op.id, op.generation, op.sent);
    LeaderSyncHolds(g, sent, op.id);
  }

  lemma StaysFilled(g: Group, start: Group, sent: map<Bytes, Bytes>, op: Op, id: Bytes)
    requires Window(g, start, sent) && Quiet(op, start.leader, sent) && op != TakeSync(id)
    requires id in g.members && id != g.leader && g.members[id].awaitSync == Some(sent[id])
    ensures WellFormed(Step(g, op)) && Reply(Step(g, op), TakeSync(id)) == Some(sent[id])
  {
    hide Listed, WellFormed, Sync, CompleteJoin;
    if LeaderSyncs(g, op) { SyncFills(g, start, sent, op, id); }
    else if op.SyncOp? { NotLeadersSync(g, op); }
    else if op == CompleteOp {
      QuietComplete(g, start, sent);
      CompleteCarries(g, id);
    } else { TakeKeeps(g, op); }
  }

  lemma NotLeadersSync(g: Group, op: Op)
    requires WellFormed(g) && op.SyncOp? && !LeaderSyncs(g, op)
    ensures Step(g, op) == g
  {}

  // ----- rebalances -----

  /** A member joins, or one is removed. */
  predicate Disturbs(g: Group, op: Op) { op.JoinOp? || (op.RemoveOp? && op.id in g.members) }

  /** A join is completed, or a Sync of the leader accepted. */
  ghost predicate Settles(g: Group, op: Op) { Completes(g, op) || LeaderSyncs(g, op) }

  /** The membership changed and nothing has settled it since. */
  ghost predicate Pending(g: Group, ops: seq<Op>)
    requires WellFormed(g) && AllNamed(ops)
  {
    if ops == [] then g.phase == Preparing
    else
      var n := |ops| - 1;
      Disturbs(Run(g, ops[..n]), ops[n]) || (Pending(g, ops[..n]) && !Settles(Run(g, ops[..n]), ops[n]))
  }

  lemma PhaseAfter(g: Group, op: Op)
    requires WellFormed(g) && Named(op) && Step(g, op).members != map[]
    ensures g.members == map[] ==> Disturbs(g, op)
    ensures Step(g, op).phase == Preparing <==> Disturbs(g, op) || (g.phase == Preparing && !Settles(g, op))
  {
    hide Results, ResultFor, Without, Distinct, Signed32, Assigned, FannedOut;
    if op == CompleteOp && g.members != map[] { Populated(g); }
    if op == CompleteOp && g.joinOrder != [] { assert g.joinOrder[0] in g.members; }
  }

  /** Over every run: a group with members prepares a rebalance exactly while a change
      of its membership is not settled. */
  lemma {:induction false} PreparingIff(g: Group, ops: seq<Op>)
    requires WellFormed(g) && AllNamed(ops) && Run(g, ops).members != map[]
    ensures Run(g, ops).phase == Preparing <==> Pending(g, ops)
  {
    hide WellFormed, Step, Settles, Disturbs;
    if ops != [] {
      var n := |ops| - 1;
      if Run(g, ops[..n]).members != map[] { PreparingIff(g, ops[..n]); }
      PhaseAfter(Run(g, ops[..n]), ops[n]);
    }
  }

  /** Over every run, a member's heartbeat, for whatever generation, is answered with
      the rebalance exactly while a change of the membership is not settled. */
  lemma RebalanceToldIff(g: Group, ops: seq<Op>, id: Bytes, generation: int)
    requires WellFormed(g) && AllNamed(ops) && id in Run(g, ops).members
    ensures Heartbeat(Run(g, ops), id, generation) == ErrRebalanceInProgress <==> Pending(g, ops)
  {
    hide WellFormed, Run;
    PreparingIff(g, ops);
  }

  /** A join brings its member, at the end of the order if it is new, with empty channels,
      and changes nobody else. */
  lemma JoinIs(g: Group, id: Bytes, timeout: int, offers: seq<Offer>)
    requires WellFormed(g)
    ensures var h := Join(g, id, timeout, offers);
            && h.members.Keys == g.members.Keys + {id}
            && h.members[id].awaitJoin == None && h.members[id].awaitSync == None
            && (forall x :: x in g.members && x != id ==> h.members[x] == g.members[x])
            && (id !in g.members ==> h.joinOrder == g.joinOrder + [id])
            && (id in g.members ==> h.joinOrder == g.joinOrder)
            && h == g.(phase := Preparing, members := h.members, joinOrder := h.joinOrder)
  {
    hide Listed;
  }

  /** Removing a member takes it out and nothing else; the last one leaves the group
      empty, without leader and protocol. */
  lemma RemoveIs(g: Group, id: Bytes)
    requires WellFormed(g) && id in g.members
    ensures var h := Remove(g, id);
            && h.members == g.members - {id} && h.generation == g.generation && h.announced == g.announced
            && (if h.members == map[] then h.phase == Empty && h.leader == [] && h.protocol == [] && h.joinOrder == []
                else h.phase == Preparing && h.protocol == g.protocol &&
                     h.leader == if g.leader == id then [] else g.leader)
  {
    hide Without, Distinct;
    WithoutIs(g.joinOrder, id);
    var h := Remove(g, id);
    assert h.joinOrder != [] ==> h.joinOrder[0] in h.members;
  }

  /** Two members that stay keep their places in the join order. */
  lemma {:induction false} WithoutKeepsOrder(order: seq<Bytes>, id: Bytes, a: nat, b: nat)
    requires a < b < |order| && order[a] != id && order[b] != id
    ensures exists i, j ::
            0 <= i < j < |Without(order, id)| && Without(order, id)[i] == order[a] && Without(order, id)[j] == order[b]
  {
    var n := |order| - 1;
    var init := Without(order[..n], id);
    if b < n {
      WithoutKeepsOrder(order[..n], id, a, b);
      var i, j :| 0 <= i < j < |init| && init[i] == order[a] && init[j] == order[b];
      assert Without(order, id)[i] == order[a] && Without(order, id)[j] == order[b];
    } else {
      WithoutIs(order[..n], id);
      assert order[a] == order[..n][a] && order[a] in init;
      var i :| 0 <= i < |init| && init[i] == order[a];
      assert Without(order, id)[i] == order[a] && Without(order, id)[|init|] == order[b];
    }
  }

  /** The leader's accepted Sync gives each member what was sent for it, or leaves it
      what it had, and offers that to every other member whose channel is empty. */
  lemma LeaderSyncIs(g: Group, generation: int, sent: map<Bytes, Bytes>)
    requires g.leader in g.members && generation == g.generation
    ensures var (h, outcome) := Sync(g, g.leader, generation, sent);
            && h.phase == Stable && h.generation == g.generation && h.members.Keys == g.members.Keys
            && outcome == Replied(h.members[g.leader].assignment)
            && forall id :: id in g.members ==>
                 && h.members[id].assignment == (if id in sent then sent[id] else g.members[id].assignment)
                 && h.members[id].awaitSync == (if id != g.leader && g.members[id].awaitSync == None
                                                then Some(h.members[id].assignment) else g.members[id].awaitSync)
                 && h.members[id].awaitJoin == g.members[id].awaitJoin
  {}

  /** What the leaders last sent for a member since it came. */
  ghost function LastSent(ops: seq<Op>, id: Bytes): Bytes
    requires WellFormed(Fresh) && AllNamed(ops)
  {
    if ops == [] then []
    else
      var n := |ops| - 1;
      var before, op := Run(Fresh, ops[..n]), ops[n];
      if LeaderSyncs(before, op) && id in op.sent && id in before.members then op.sent[id]
      else if op == RemoveOp(id) then []
      else LastSent(ops[..n], id)
  }

  /** Over every run, rejoins included, a member's assignment is what a leader last sent
      for it, and a newcomer has none. */
  lemma {:induction false} AssignedAsSent(ops: seq<Op>, id: Bytes)
    requires WellFormed(Fresh) && AllNamed(ops)
    ensures LastSent(ops, id) == if id in Run(Fresh, ops).members then Run(Fresh, ops).members[id].assignment else []
  {
    hide WellFormed, Step, LeaderSyncs;
    if ops != [] {
      var n := |ops| - 1;
      AssignedAsSent(ops[..n], id);
      AssignmentMoves(Run(Fresh, ops[..n]), ops[n], id);
    }
  }

  function AssignmentOf(members: map<Bytes, Member>, id: Bytes): Bytes {
    if id in members then members[id].assignment else []
  }

  lemma AssignmentMoves(g: Group, op: Op, id: Bytes)
    requires WellFormed(g)
    ensures AssignmentOf(Step(g, op).members, id) ==
            if LeaderSyncs(g, op) && id in op.sent && id in g.members then op.sent[id]
            else if op == RemoveOp(id) then []
            else AssignmentOf(g.members, id)
  {
    hide WellFormed, CompleteJoin, Sync, Without;
    if op.SyncOp? { SyncAssigns(g, op, id); } else if op == CompleteOp { CompleteAssigns(g, id); }
  }

  lemma SyncAssigns(g: Group, op: Op, id: Bytes)
    requires WellFormed(g) && op.SyncOp?
    ensures AssignmentOf(Step(g, op).members, id) ==
            if LeaderSyncs(g, op) && id in op.sent && id in g.members then op.sent[id] else AssignmentOf(g.members, id)
  {
    hide WellFormed;
    if LeaderSyncs(g, op) { LeaderSyncIs(g, op.generation, op.sent); } else { NotLeadersSync(g, op); }
  }

  lemma CompleteAssigns(g: Group, id: Bytes)
    requires WellFormed(g)
    ensures AssignmentOf(CompleteJoin(g).members, id) == AssignmentOf(g.members, id)
  {
    hide Signed32, Distinct, Results, ResultFor;
  }

  // ----- what a completed join announces -----

  /** The last join of a member. */
  function LastJoin(ops: seq<Op>, id: Bytes): Option<Op> {
    if ops == [] then None
    else
      var op := ops[|ops| - 1];
      if op.JoinOp? && op.id == id then Some(op) else LastJoin(ops[..|ops| - 1], id)
  }

  /** The member is as it asked for: the first protocol it offered, if any. */
  ghost predicate AsOffered(m: Member, join: Op)
    requires join.JoinOp?
  {
    && m.sessionTimeout == join.timeout
    && (join.offers == [] ==> m.protocol == [] && m.metadata == [])
    && (join.offers != [] ==> m.protocol == join.offers[0].name && m.metadata == join.offers[0].metadata)
  }

  lemma OfferStays(g: Group, op: Op, id: Bytes)
    requires WellFormed(g) && id in Step(g, op).members && !(op.JoinOp? && op.id == id)
    ensures id in g.members
    ensures SameOffer(g.members[id], Step(g, op).members[id])
  {
    hide WellFormed, Listed, Sync, CompleteJoin, Without;
    match op
    case SyncOp(member, generation, sent) => SyncKeepsOffer(g, member, generation, sent, id);
    case CompleteOp => CompleteKeepsOffer(g, id);
    case _ =>
  }

  ghost predicate SameOffer(m: Member, m': Member) {
    m'.protocol == m.protocol && m'.metadata == m.metadata && m'.sessionTimeout == m.sessionTimeout
  }

  lemma SyncKeepsOffer(g: Group, member: Bytes, generation: int, sent: map<Bytes, Bytes>, id: Bytes)
    requires id in Sync(g, member, generation, sent).0.members
    ensures id in g.members && SameOffer(g.members[id], Sync(g, member, generation, sent).0.members[id])
  {}

  lemma CompleteKeepsOffer(g: Group, id: Bytes)
    requires WellFormed(g) && id in CompleteJoin(g).members
    ensures id in g.members && SameOffer(g.members[id], CompleteJoin(g).members[id])
  {
    hide ResultFor, Results, Distinct, Signed32;
  }

  /** Over every run, each member has what its last join offered. */
  lemma {:induction false} MembersAsOffered(ops: seq<Op>, id: Bytes)
    requires AllNamed(ops) && WellFormed(Fresh) && id in Run(Fresh, ops).members
    ensures LastJoin(ops, id).Some? && LastJoin(ops, id).value.JoinOp?
    ensures AsOffered(Run(Fresh, ops).members[id], LastJoin(ops, id).value)
  {
    hide WellFormed;
    var n := |ops| - 1;
    if !(ops[n].JoinOp? && ops[n].id == id) {
      hide Step;
      OfferStays(Run(Fresh, ops[..n]), ops[n], id);
      MembersAsOffered(ops[..n], id);
    }
  }

  /** One result for each member, in join order, all of the new generation, naming its
      leader and protocol; the leader's lists the members in join order with their
      metadata, the others' none.  A member whose channel is empty finds its own there. */
  ghost predicate Announces(g: Group, h: Group) {
    && g.joinOrder != [] && g.announced <= h.announced
    && h.leader == g.joinOrder[0] && h.leader in g.members && h.protocol == g.members[h.leader].protocol
    && h.members.Keys == g.members.Keys
    && var added := h.announced[|g.announced|..];
       |added| == |g.joinOrder| && forall i :: 0 <= i < |added| ==> AnnouncesOne(g, h, i, added[i])
  }

  ghost predicate AnnouncesOne(g: Group, h: Group, i: nat, r: JoinResult)
    requires i < |g.joinOrder|
  {
    && r.member == g.joinOrder[i] && r.generation == h.generation && r.leader == h.leader && r.protocol == h.protocol
    && (if i > 0 then r.members == [] else ListsAll(g, r.members))
    && r.member in g.members && r.member in h.members
    && h.members[r.member].awaitJoin ==
       if g.members[r.member].awaitJoin == None then Some(r) else g.members[r.member].awaitJoin
  }

  ghost predicate ListsAll(g: Group, listed: seq<JoinMember>) {
    |listed| == |g.joinOrder| && forall j :: 0 <= j < |listed| ==>
      && g.joinOrder[j] in g.members
      && listed[j].id == g.joinOrder[j] && listed[j].metadata == g.members[listed[j].id].metadata
  }

  lemma CompleteAnnounces(g: Group)
    requires WellFormed(g) && g.members != map[]
    ensures Announces(g, CompleteJoin(g))
  {
    hide Signed32, Distinct, ResultFor, AnnouncesOne;
    Populated(g);
    var h, e := CompleteJoin(g), Elected(g);
    assert g.joinOrder[0] in g.members && h.members.Keys == g.members.Keys;
    var added := h.announced[|g.announced|..];
    assert added == Results(e);
    forall i | 0 <= i < |added| ensures AnnouncesOne(g, h, i, added[i]) { ResultAnnounces(g, i); }
  }

  lemma ResultAnnounces(g: Group, i: nat)
    requires WellFormed(g) && i < |g.joinOrder|
    ensures AnnouncesOne(g, CompleteJoin(g), i, ResultFor(Elected(g), g.joinOrder[i]))
  {
    hide Signed32, Distinct, Results, ListsAll, Listing;
    assert g.joinOrder[i] in g.members;
    if i > 0 { DistinctFirst(g.joinOrder, i); }
    ListsMembers(g, Elected(g));
  }

  lemma ListsMembers(g: Group, e: Group)
    requires Listed(g) && Listed(e) && e.joinOrder == g.joinOrder && e.members == g.members
    ensures ListsAll(g, Listing(e))
  {
    hide Distinct;
  }

  lemma DistinctFirst(order: seq<Bytes>, i: nat)
    requires Distinct(order) && 0 < i < |order|
    ensures order[i] != order[0]
  {}

  /** Over every run: the leader that a completed join announces is told the metadata of
      each member's last join, and everybody the protocol of the leader's. */
  lemma AnnouncedAsOffered(ops: seq<Op>, i: nat)
    requires AllNamed(ops) && WellFormed(Fresh) && Run(Fresh, ops).members != map[]
    requires i < |Run(Fresh, ops).joinOrder|
    ensures var g := Run(Fresh, ops);
            var h := CompleteJoin(g);
            && Announces(g, h)
            && var told, id := h.announced[|g.announced|], g.joinOrder[i];
               && |told.members| == |g.joinOrder| && told.members[i].id == id && told.member == h.leader
               && FirstOffer(LastJoin(ops, id), told.members[i].metadata)
               && FirstNamed(LastJoin(ops, h.leader), h.protocol)
  {
    hide Run, Listed, CompleteJoin, LastJoin;
    var g := Run(Fresh, ops);
    CompleteAnnounces(g);
    var h := CompleteJoin(g);
    var added := h.announced[|g.announced|..];
    assert AnnouncesOne(g, h, 0, added[0]);
    MembersAsOffered(ops, g.joinOrder[i]);
    MembersAsOffered(ops, h.leader);
  }

  ghost predicate FirstOffer(join: Option<Op>, metadata: Bytes) {
    join.Some? && join.value.JoinOp? &&
    metadata == if join.value.offers == [] then [] else join.value.offers[0].metadata
  }

  ghost predicate FirstNamed(join: Option<Op>, name: Bytes) {
    join.Some? && join.value.JoinOp? && name == if join.value.offers == [] then [] else join.value.offers[0].name
  }

  ghost predicate NoneCompletes(g: Group, ops: seq<Op>)
    requires WellFormed(g) && AllNamed(ops)
  {
    forall i :: 0 <= i < |ops| ==> !Completes(Run(g, ops[..i]), ops[i])
  }

  /** Whoever joins waits with an empty channel until a join completes. */
  lemma {:induction false} JoinWaits(g: Group, ops: seq<Op>, id: Bytes)
    requires WellFormed(g) && AllNamed(ops) && NoneCompletes(g, ops)
    requires Joins(ops, id) && id in Run(g, ops).members
    ensures Run(g, ops).members[id].awaitJoin == None
  {
    hide WellFormed, Step;
    var n := |ops| - 1;
    var before := Run(g, ops[..n]);
    if ops[n].JoinOp? && ops[n].id == id { JoinEmpties(before, ops[n]); }
    else {
      var i :| 0 <= i < |ops| && ops[i].JoinOp? && ops[i].id == id;
      assert ops[..n][i] == ops[i] && Joins(ops[..n], id);
      forall k | 0 <= k < n ensures !Completes(Run(g, ops[..n][..k]), ops[..n][k]) { assert ops[..n][..k] == ops[..k]; }
      assert !Completes(before, ops[n]);
      NobodyAnswers(before, ops[n], id);
      JoinWaits(g, ops[..n], id);
    }
  }

  lemma JoinEmpties(g: Group, op: Op)
    requires WellFormed(g) && op.JoinOp?
    ensures op.id in Step(g, op).members && Step(g, op).members[op.id].awaitJoin == None
  {}

  lemma NobodyAnswers(g: Group, op: Op, id: Bytes)
    requires WellFormed(g) && !Completes(g, op) && !(op.JoinOp? && op.id == id) && id in Step(g, op).members
    ensures id in g.members && (g.members[id].awaitJoin == None ==> Step(g, op).members[id].awaitJoin == None)
  {
    hide ResultFor, Results, Without, Distinct;
  }

  /** A parked Join is woken by the first join that completes after it, with its own
      result of that generation. */
  lemma JoinedAreWoken(g: Group, ops: seq<Op>, id: Bytes)
    requires WellFormed(g) && AllNamed(ops) && NoneCompletes(g, ops)
    requires Joins(ops, id) && id in Run(g, ops).members
    ensures var h := CompleteJoin(Run(g, ops));
            && id in h.members && h.members[id].awaitJoin.Some?
            && var r := h.members[id].awaitJoin.value;
               r.member == id && r.generation == h.generation && r.leader == h.leader && r.protocol == h.protocol
  {
    hide Run, Joins, NoneCompletes, CompleteJoin;
    JoinWaits(g, ops, id);
    var before := Run(g, ops);
    CompleteAnnounces(before);
    assert id in before.joinOrder;
    var i :| 0 <= i < |before.joinOrder| && before.joinOrder[i] == id;
    var h := CompleteJoin(before);
    var added := h.announced[|before.announced|..];
    assert AnnouncesOne(before, h, i, added[i]);
  }

  ghost predicate Joins(ops: seq<Op>, id: Bytes) { exists i :: 0 <= i < |ops| && ops[i].JoinOp? && ops[i].id == id }

  /** No Sync of the current leader is accepted during the run. */
  ghost predicate LeaderWaits(g: Group, ops: seq<Op>)
    requires WellFormed(g) && AllNamed(ops)
  {
    forall i :: 0 <= i < |ops| ==> !LeaderSyncs(Run(g, ops[..i]), ops[i])
  }

  /** A member that joined since the leader's last Sync has an empty Sync channel. */
  lemma {:induction false} RejoinedAreSilent(g: Group, ops: seq<Op>, id: Bytes)
    requires WellFormed(g) && AllNamed(ops) && LeaderWaits(g, ops)
    requires Joins(ops, id) && id in Run(g, ops).members
    ensures Run(g, ops).members[id].awaitSync == None
  {
    hide WellFormed, Step, LeaderSyncs;
    var n := |ops| - 1;
    var before := Run(g, ops[..n]);
    if ops[n].JoinOp? && ops[n].id == id { JoinSilences(before, ops[n]); }
    else {
      var i :| 0 <= i < |ops| && ops[i].JoinOp? && ops[i].id == id;
      assert ops[..n][i] == ops[i] && Joins(ops[..n], id);
      forall k | 0 <= k < n ensures !LeaderSyncs(Run(g, ops[..n][..k]), ops[..n][k]) {
        assert ops[..n][..k] == ops[..k];
      }
      StaysSilent(before, ops[n], id);
      RejoinedAreSilent(g, ops[..n], id);
    }
  }

  lemma JoinSilences(g: Group, op: Op)
    requires WellFormed(g) && op.JoinOp?
    ensures op.id in Step(g, op).members && Step(g, op).members[op.id].awaitSync == None
  {}

  /** Nothing but the leader's Sync fills a Sync channel, and nothing but a Join adds a member. */
  lemma StaysSilent(g: Group, op: Op, id: Bytes)
    requires WellFormed(g) && !LeaderSyncs(g, op) && !(op.JoinOp? && op.id == id) && id in Step(g, op).members
    ensures id in g.members
    ensures g.members[id].awaitSync == None ==> Step(g, op).members[id].awaitSync == None
  {
    hide ResultFor, Results, Without, Distinct;
  }

  ghost predicate AllRejoined(g: Group, ops: seq<Op>) { forall id :: id in g.members ==> Joins(ops, id) }

  ghost predicate Opens(h: Group, before: Group) {
    Silent(h) && h.phase == Completing && h.members.Keys == before.members.Keys
  }

  /** A window in which every member that is left rejoins, then the join timer: the next generation starts silent. */
  lemma RebalanceIsSilent(g: Group, ops: seq<Op>)
    requires WellFormed(g) && AllNamed(ops) && LeaderWaits(g, ops)
    requires Run(g, ops).members != map[] && AllRejoined(Run(g, ops), ops)
    ensures AllNamed(ops + [CompleteOp]) && Opens(Run(g, ops + [CompleteOp]), Run(g, ops))
  {
    hide Joins, CompleteJoin, Listed, LeaderWaits;
    var before := Run(g, ops);
    assert (ops + [CompleteOp])[..|ops|] == ops;
    forall id | id in before.members ensures before.members[id].awaitSync == None { RejoinedAreSilent(g, ops, id); }
    CompleteOpens(before);
  }

  lemma CompleteOpens(g: Group)
    requires WellFormed(g) && g.members != map[] && Silent(g)
    ensures Opens(CompleteJoin(g), g)
  {
    hide ResultFor, Results, Distinct, Signed32;
    var some :| some in g.members;
    assert some in g.joinOrder;
    assert CompleteJoin(g).members.Keys == g.members.Keys;
  }

  // ----- a leader that syncs while a rebalance is being prepared -----

  /** The leader syncs, without naming the newcomer, after the newcomer's join and before the timer fires. */
  function EarlySync(g: Group, newcomer: Bytes, assignments: map<Bytes, Bytes>): seq<Op> {
    [JoinOp(newcomer, 0, []), SyncOp(g.leader, g.generation, assignments), CompleteOp]
  }

  /** The newcomer opens the next generation with an empty answer, and may never hear what the leader then sends it. */
  lemma EarlySyncIsStale(g: Group, newcomer: Bytes, assignments: map<Bytes, Bytes>, sent: map<Bytes, Bytes>)
    requires WellFormed(g) && g.leader in g.members
    requires newcomer != [] && newcomer !in g.members && newcomer !in assignments
    requires g.members.Keys + {newcomer} <= sent.Keys && sent[newcomer] != []
    ensures AllNamed(EarlySync(g, newcomer, assignments))
    ensures !OnlyTheLeadersWord(Run(g, EarlySync(g, newcomer, assignments)), sent)
  {
    hide OnlyTheLeadersWord, Join, Sync, CompleteJoin, WellFormed, Clean;
    var ops := EarlySync(g, newcomer, assignments);
    assert ops[..2][..1] == ops[..1] && ops[..1][..0] == [];
    assert Run(g, ops[..0]) == g;
    assert Run(g, ops[..1]) == Join(g, newcomer, 0, []);
    EarlyJoin(g, newcomer, assignments);
    assert Run(g, ops[..2]) == Sync(Run(g, ops[..1]), g.leader, g.generation, assignments).0;
    var h := Run(g, ops);
    LeadersWordIff(h, sent);
    assert !Clean(h, sent) by { NotClean(h, newcomer, sent); }
  }

  lemma NotClean(g: Group, id: Bytes, sent: map<Bytes, Bytes>)
    requires id in g.members && id != g.leader && id in sent
    requires g.members[id].awaitSync == Some([]) && sent[id] != []
    ensures !Clean(g, sent)
  {}

  lemma EarlyJoin(g: Group, newcomer: Bytes, assignments: map<Bytes, Bytes>)
    requires WellFormed(g) && g.leader in g.members
    requires newcomer != [] && newcomer !in g.members && newcomer !in assignments
    ensures var joined := Join(g, newcomer, 0, []);
            var synced := Sync(joined, g.leader, g.generation, assignments).0;
            WellFormed(joined) && WellFormed(synced) && Opened(CompleteJoin(synced), g.members.Keys, newcomer)
  {
    hide CompleteJoin, Listed;
    JoinKeeps(g, newcomer, 0, []);
    var joined := Join(g, newcomer, 0, []);
    SyncKeeps(joined, g.leader, g.generation, assignments);
    var synced := Sync(joined, g.leader, g.generation, assignments).0;
    assert synced.members.Keys == g.members.Keys + {newcomer};
    assert synced.members[newcomer].awaitSync == Some([]);
    CompleteCarries(synced, newcomer);
  }

  lemma CompleteCarries(g: Group, id: Bytes)
    requires WellFormed(g) && id in g.members
    ensures var h := CompleteJoin(g);
            && h.phase == Completing && h.members.Keys == g.members.Keys
            && h.members[id].awaitSync == g.members[id].awaitSync
            && (g.leader != [] ==> h.leader == g.leader)
  {
    hide ResultFor, Results, Distinct, Signed32;
    assert id in g.joinOrder;
    assert CompleteJoin(g).members.Keys == g.members.Keys;
  }

  ghost predicate Opened(h: Group, others: set<Bytes>, newcomer: Bytes) {
    && h.phase == Completing && h.members.Keys == others + {newcomer}
    && h.leader != newcomer && h.members[newcomer].awaitSync == Some([])
  }

  // ----- the generation wraps -----

  /** One member joins, and the join timer fires k times. */
  function Firings(k: nat): (ops: seq<Op>)
    ensures |ops| == k + 1
  {
    [JoinOp([97], 0, [])] + seq(k, _ => CompleteOp)
  }

  lemma {:induction false} FiringsComplete(k: nat)
    ensures AllNamed(Firings(k)) && WellFormed(Fresh)
    ensures Run(Fresh, Firings(k)).members.Keys == {[97]} && Completions(Fresh, Firings(k)) == k
  {
    FreshIsGood();
    var ops := Firings(k);
    assert AllNamed(ops);
    hide CompleteJoin, WellFormed, Firings, Step, AllNamed;
    FiringsStart(k);
    if k == 0 {
      assert Run(Fresh, []) == Fresh && Completions(Fresh, []) == 0;
      OneJoins();
    } else {
      FiringsComplete(k - 1);
      FiresAgain(Run(Fresh, ops[..k]));
    }
  }

  lemma OneJoins()
    ensures Step(Fresh, JoinOp([97], 0, [])).members.Keys == {[97]}
  {
    hide CompleteJoin;
  }

  lemma FiresAgain(g: Group)
    requires WellFormed(g) && g.members.Keys == {[97]}
    ensures Completes(g, CompleteOp) && Step(g, CompleteOp).members.Keys == {[97]}
  {
    hide CompleteJoin, WellFormed;
    assert [97] in g.members.Keys;
    CompleteCarries(g, [97]);
  }

  lemma FiringsStart(k: nat)
    ensures Firings(k)[0] == JoinOp([97], 0, [])
    ensures k > 0 ==> Firings(k)[k] == CompleteOp && Firings(k)[..k] == Firings(k - 1)
    ensures k == 0 ==> Firings(k)[..k] == []
  {}

  /** A run in which the generation falls: 2^31 firings of the join timer. */
  lemma GenerationWraps()
    ensures AllNamed(Firings(TwoTo31)) && WellFormed(Fresh) && !AllRise(Fresh, Firings(TwoTo31))
  {
    hide Run, AllRise, WellFormed, Completions;
    FiringsComplete(TwoTo31);
    GenerationsRiseIff(Firings(TwoTo31));
  }

  // ----- the early Sync is reachable -----

  /** A run from an unused group id that gets there: a alone in generation 1, then b with the early Sync. */
  lemma EarlySyncHappens()
    ensures var ops := [JoinOp([97], 0, []), CompleteOp];
            WellFormed(Fresh) && AllNamed(ops) && Run(Fresh, ops).leader == [97] && [97] in Run(Fresh, ops).members
  {
    var ops := [JoinOp([97], 0, []), CompleteOp];
    FreshIsGood();
    assert AllNamed(ops);
    hide Join, CompleteJoin, WellFormed;
    assert ops[..1][..0] == [];
    assert Run(Fresh, ops[..0]) == Fresh;
    assert Run(Fresh, ops[..1]) == Join(Fresh, [97], 0, []);
    Alone();
  }

  lemma Alone()
    ensures var joined := Join(Fresh, [97], 0, []);
            Listed(joined) && CompleteJoin(joined).leader == [97] && [97] in CompleteJoin(joined).members
  {
    hide Results, ResultFor, Signed32;
    var joined := Join(Fresh, [97], 0, []);
    assert joined.joinOrder == [[97]] && joined.members.Keys == {[97]};
  }

  lemma FreshIsGood()
    ensures Good(Fresh)
  {}
}
