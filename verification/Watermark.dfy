/**
 The leader's view of one partition: follower offsets, the time-based in-sync
 set, the high watermark, and the produce calls parked until it reaches them.
 */
module Watermark {

  // ----- the watermark -----

  datatype Offsets = Offsets(
    replicas: seq<int>, leader: int, followerOffset: map<int, int>, followerSeen: map<int, int>,
    leaderEnd: int, high: int, lagTimeout: int)

  predicate InSync(o: Offsets, broker: int, now: int) {
    broker in o.followerSeen && now - o.followerSeen[broker] <= o.lagTimeout
  }

  function OffsetOf(o: Offsets, broker: int): int {
    if broker in o.followerOffset then o.followerOffset[broker] else 0
  }

  /** Followers that bound the watermark now. */
  predicate Bounds(o: Offsets, broker: int, now: int) {
    broker in o.replicas && broker != o.leader && InSync(o, broker, now)
  }

  /** The least of the leader's end and the in-sync followers' offsets. */
  ghost predicate IsWatermark(o: Offsets, now: int, high: int) {
    && high <= o.leaderEnd
    && (forall b :: Bounds(o, b, now) ==> high <= OffsetOf(o, b))
    && (high == o.leaderEnd || exists b :: Bounds(o, b, now) && high == OffsetOf(o, b))
  }

  function WatermarkOver(o: Offsets, replicas: seq<int>, now: int): int {
    if replicas == [] then o.leaderEnd
    else
      var next, b := WatermarkOver(o, replicas[..|replicas| - 1], now), replicas[|replicas| - 1];
      if b == o.leader || !InSync(o, b, now) then next
      else if OffsetOf(o, b) < next then OffsetOf(o, b) else next
  }

  function Recomputed(o: Offsets, now: int): Offsets {
    o.(high := WatermarkOver(o, o.replicas, now))
  }

  lemma {:induction false} WatermarkOverIs(o: Offsets, replicas: seq<int>, now: int)
    ensures IsWatermark(o.(replicas := replicas), now, WatermarkOver(o, replicas, now))
  {
    if replicas != [] {
      var n := |replicas| - 1;
      var some, all := o.(replicas := replicas[..n]), o.(replicas := replicas);
      WatermarkOverIs(o, replicas[..n], now);
      assert forall b :: Bounds(all, b, now) <==>
             Bounds(some, b, now) || (b == replicas[n] && b != o.leader && InSync(o, b, now));
      assert forall b :: OffsetOf(all, b) == OffsetOf(some, b) == OffsetOf(o, b);
    }
  }

  /** Recomputing makes the high watermark the least in-sync offset. */
  lemma RecomputedIs(o: Offsets, now: int)
    ensures IsWatermark(o, now, Recomputed(o, now).high)
  {
    WatermarkOverIs(o, o.replicas, now);
  }

  function NewOffsets(replicas: seq<int>, leader: int, lagTimeout: int, now: int): Offsets {
    var followers := set b | b in replicas && b != leader;
    var offset, seen := map b | b in followers :: 0, map b | b in followers :: now;
    Recomputed(Offsets(replicas, leader, offset, seen, 0, 0, lagTimeout), now)
  }

  // ----- parked calls -----

  /** A parked produce call; ids stand for the waiters' identities. */
  datatype Waiter = Waiter(id: nat, target: int)

  /** One close of a waiter's channel, and the watermark at that moment. */
  datatype Closing = Closing(waiter: Waiter, high: int)

  datatype State = State(offsets: Offsets, waiters: seq<Waiter>, closings: seq<Closing>, nextId: nat)

  function Filter(keep: Waiter -> bool, ws: seq<Waiter>): seq<Waiter> {
    if ws == [] then []
    else
      var init, w := Filter(keep, ws[..|ws| - 1]), ws[|ws| - 1];
      if keep(w) then init + [w] else init
  }

  function Above(high: int): Waiter -> bool {
    (w: Waiter) => w.target > high
  }

  function Reached(high: int): Waiter -> bool {
    (w: Waiter) => w.target <= high
  }

  function Other(id: nat): Waiter -> bool {
    (w: Waiter) => w.id != id
  }

  function Closings(ws: seq<Waiter>, high: int): seq<Closing> {
    seq(|ws|, i requires 0 <= i < |ws| => Closing(ws[i], high))
  }

  /** Closes every waiter that the watermark reached; the others stay. */
  function Release(s: State): State {
    var high := s.offsets.high;
    s.(waiters := Filter(Above(high), s.waiters),
       closings := s.closings + Closings(Filter(Reached(high), s.waiters), high))
  }

  /** recompute, then releaseWaiters if the watermark changed. */
  function Refresh(s: State, now: int): State {
    var s' := s.(offsets := Recomputed(s.offsets, now));
    if s'.offsets.high != s.offsets.high then Release(s') else s'
  }

  /** A follower fetch arrives: the offset it asks from is what it has. */
  function RecordFetch(s: State, broker: int, fetchOffset: int, leaderEnd: int, seen: int, now: int): State {
    var o := s.offsets;
    Refresh(s.(offsets := o.(followerOffset := o.followerOffset[broker := fetchOffset],
                             followerSeen := o.followerSeen[broker := seen],
                             leaderEnd := leaderEnd)), now)
  }

  function SetLeaderEnd(s: State, leaderEnd: int, now: int): State {
    Refresh(s.(offsets := s.offsets.(leaderEnd := leaderEnd)), now)
  }

  /** The locked part of a wait: done at once, or parked. */
  function Wait(s: State, target: int, now: int): State {
    var s' := SetLeaderEnd(s, if target > s.offsets.leaderEnd then target else s.offsets.leaderEnd, now);
    if s'.offsets.high >= target then s'
    else s'.(waiters := s'.waiters + [Waiter(s'.nextId, target)], nextId := s'.nextId + 1)
  }

  function TimeOut(s: State, id: nat): State {
    s.(waiters := Filter(Other(id), s.waiters))
  }

  /** ISR(): recomputes and releases nobody. */
  function AskISR(s: State, now: int): State {
    s.(offsets := Recomputed(s.offsets, now))
  }

  // ----- waiter discipline -----

  predicate DistinctIds(ws: seq<Waiter>) {
    forall i, j :: 0 <= i < j < |ws| ==> ws[i].id != ws[j].id
  }

  /** A filter keeps exactly the waiters it should, and stays free of repeats. */
  lemma {:induction false} FilterKeeps(keep: Waiter -> bool, ws: seq<Waiter>)
    ensures forall w :: w in Filter(keep, ws) <==> w in ws && keep(w)
    ensures DistinctIds(ws) ==> DistinctIds(Filter(keep, ws))
  {
    if ws != [] {
      var n := |ws| - 1;
      FilterKeeps(keep, ws[..n]);
      assert ws == ws[..n] + [ws[n]];
      var init := Filter(keep, ws[..n]);
      if DistinctIds(ws) {
        forall i | 0 <= i < |init| ensures init[i].id != ws[n].id { assert init[i] in init && init[i] in ws[..n]; }
      }
    }
  }

  lemma FilterStep(keep: Waiter -> bool, ws: seq<Waiter>, i: nat)
    requires i < |ws|
    ensures Filter(keep, ws[..i + 1]) == if keep(ws[i]) then Filter(keep, ws[..i]) + [ws[i]] else Filter(keep, ws[..i])
  {
    assert ws[..i + 1][..i] == ws[..i];
  }

  lemma NothingFiltered(keep: Waiter -> bool, ws: seq<Waiter>)
    ensures Filter(keep, ws[..0]) == []
  {}

  lemma NothingLeft(ws: seq<Waiter>, high: int)
    ensures Filter(Above(high), ws[..0]) == [] && Closings(Filter(Reached(high), ws[..0]), high) == []
  {}

  lemma ClosingsStep(ws: seq<Waiter>, w: Waiter, high: int)
    ensures Closings(ws + [w], high) == Closings(ws, high) + [Closing(w, high)]
  {}

  /** Two waiters that stay keep their order. */
  lemma {:induction false} FilterKeepsOrder(keep: Waiter -> bool, ws: seq<Waiter>, a: nat, b: nat)
    requires a < b < |ws| && keep(ws[a]) && keep(ws[b])
    ensures exists i, j ::
            0 <= i < j < |Filter(keep, ws)| && Filter(keep, ws)[i] == ws[a] && Filter(keep, ws)[j] == ws[b]
  {
    var n := |ws| - 1;
    var init := Filter(keep, ws[..n]);
    if b < n {
      FilterKeepsOrder(keep, ws[..n], a, b);
      var i, j :| 0 <= i < j < |init| && init[i] == ws[a] && init[j] == ws[b];
      assert Filter(keep, ws)[i] == ws[a] && Filter(keep, ws)[j] == ws[b];
    } else {
      FilterKeeps(keep, ws[..n]);
      assert ws[a] == ws[..n][a];
      var i :| 0 <= i < |init| && init[i] == ws[a];
      assert Filter(keep, ws)[i] == ws[a] && Filter(keep, ws)[|init|] == ws[b];
    }
  }

  /** Releasing closes or keeps each waiter, and loses none. */
  lemma {:induction false} ReleaseConserves(ws: seq<Waiter>, high: int)
    ensures multiset(Filter(Above(high), ws)) + multiset(Filter(Reached(high), ws)) == multiset(ws)
  {
    if ws != [] {
      var n := |ws| - 1;
      ReleaseConserves(ws[..n], high);
      assert ws == ws[..n] + [ws[n]];
    }
  }

  /** Ids are fresh, and no waiter is both parked and closed, or closed twice. */
  ghost predicate Numbered(s: State) {
    && DistinctIds(s.waiters)
    && (forall w :: w in s.waiters ==> w.id < s.nextId)
    && (forall c :: c in s.closings ==> c.waiter.id < s.nextId)
    && (forall i, j :: 0 <= i < j < |s.closings| ==> s.closings[i].waiter.id != s.closings[j].waiter.id)
    && (forall w, c :: w in s.waiters && c in s.closings ==> w.id != c.waiter.id)
  }

  /** ... and every closed one was reached when it was closed. */
  ghost predicate Accounted(s: State) {
    Numbered(s) && forall c :: c in s.closings ==> c.waiter.target <= c.high
  }

  /** ... and every parked one is above the watermark. */
  ghost predicate Disciplined(s: State) {
    Accounted(s) && forall w :: w in s.waiters ==> w.target > s.offsets.high
  }

  lemma ReleaseDisciplines(s: State)
    requires Accounted(s)
    ensures Disciplined(Release(s))
  {
    hide Filter;
    var high := s.offsets.high;
    var out := Filter(Reached(high), s.waiters);
    FilterKeeps(Above(high), s.waiters);
    FilterKeeps(Reached(high), s.waiters);
    var added, s' := Closings(out, high), Release(s);
    forall c | c in s'.closings
      ensures c in s.closings || (c.waiter in out && c.high == high)
    {
      if c !in s.closings { var i :| 0 <= i < |added| && added[i] == c; }
    }
    forall i, j | 0 <= i < j < |s'.closings|
      ensures s'.closings[i].waiter.id != s'.closings[j].waiter.id
    {
      if j >= |s.closings| {
        assert s'.closings[j].waiter == out[j - |s.closings|] && out[j - |s.closings|] in s.waiters;
        if i < |s.closings| { assert s.closings[i] in s.closings; }
      }
    }
  }

  /** A recomputation that changes the watermark disciplines; one that does not keeps what was. */
  lemma RefreshAccounts(s: State, now: int)
    requires Accounted(s)
    ensures Accounted(Refresh(s, now))
    ensures Recomputed(s.offsets, now).high != s.offsets.high || Disciplined(s) ==> Disciplined(Refresh(s, now))
  {
    hide WatermarkOver, Release, Numbered;
    var s' := s.(offsets := Recomputed(s.offsets, now));
    assert Accounted(s') by { SameWaiters(s, s'); }
    if s'.offsets.high != s.offsets.high { ReleaseDisciplines(s'); }
  }

  lemma SameWaiters(s: State, s': State)
    requires Accounted(s) && s' == s.(offsets := s'.offsets)
    ensures Accounted(s')
  {}

  datatype Op =
    | FetchOp(broker: int, fetchOffset: int, leaderEnd: int, seen: int, now: int)
    | WatermarkOp(leaderEnd: int, now: int)
    | WaitOp(target: int, now: int)
    | TimeOutOp(id: nat)
    | AskOp(now: int)

  function Step(s: State, op: Op): State {
    match op
    case FetchOp(broker, fetchOffset, leaderEnd, seen, now) => RecordFetch(s, broker, fetchOffset, leaderEnd, seen, now)
    case WatermarkOp(leaderEnd, now) => SetLeaderEnd(s, leaderEnd, now)
    case WaitOp(target, now) => Wait(s, target, now)
    case TimeOutOp(id) => TimeOut(s, id)
    case AskOp(now) => AskISR(s, now)
  }

  lemma NotingAccounts(s: State, o: Offsets, now: int)
    requires Accounted(s) && o.high == s.offsets.high
    ensures Accounted(Refresh(s.(offsets := o), now))
    ensures Disciplined(s) ==> Disciplined(Refresh(s.(offsets := o), now))
  {
    hide Refresh, Numbered;
    SameWaiters(s, s.(offsets := o));
    RefreshAccounts(s.(offsets := o), now);
  }

  /** Every step keeps the accounts; every step but ISR() keeps the discipline. */
  lemma StepDisciplines(s: State, op: Op)
    requires Accounted(s)
    ensures Accounted(Step(s, op))
    ensures Disciplined(s) && !op.AskOp? ==> Disciplined(Step(s, op))
  {
    hide Refresh, Wait, Numbered, WatermarkOver;
    match op
    case FetchOp(broker, fetchOffset, leaderEnd, seen, now) =>
      var o := s.offsets;
      NotingAccounts(s, o.(followerOffset := o.followerOffset[broker := fetchOffset],
                           followerSeen := o.followerSeen[broker := seen], leaderEnd := leaderEnd), now);
    case WatermarkOp(leaderEnd, now) => NotingAccounts(s, s.offsets.(leaderEnd := leaderEnd), now);
    case WaitOp(target, now) => WaitAccounts(s, target, now);
    case TimeOutOp(id) => TimeOutAccounts(s, id);
    case AskOp(now) => SameWaiters(s, AskISR(s, now));
  }

  lemma TimeOutAccounts(s: State, id: nat)
    requires Accounted(s)
    ensures Accounted(TimeOut(s, id)) && (Disciplined(s) ==> Disciplined(TimeOut(s, id)))
  {
    hide Filter;
    FilterKeeps(Other(id), s.waiters);
  }

  lemma WaitAccounts(s: State, target: int, now: int)
    requires Accounted(s)
    ensures Accounted(Wait(s, target, now)) && (Disciplined(s) ==> Disciplined(Wait(s, target, now)))
  {
    hide Refresh, Numbered;
    var end := if target > s.offsets.leaderEnd then target else s.offsets.leaderEnd;
    NotingAccounts(s, s.offsets.(leaderEnd := end), now);
    var s' := SetLeaderEnd(s, end, now);
    if s'.offsets.high < target { ParkAccounts(s', target); }
  }

  lemma ParkAccounts(s: State, target: int)
    requires Accounted(s) && s.offsets.high < target
    ensures var s' := s.(waiters := s.waiters + [Waiter(s.nextId, target)], nextId := s.nextId + 1);
            Accounted(s') && (Disciplined(s) ==> Disciplined(s'))
  {}

  function Run(s: State, ops: seq<Op>): State {
    if ops == [] then s else Step(Run(s, ops[..|ops| - 1]), ops[|ops| - 1])
  }

  function Start(replicas: seq<int>, leader: int, lagTimeout: int, now: int): State {
    State(NewOffsets(replicas, leader, lagTimeout, now), [], [], 0)
  }

  /** Over any run, ISR() included, no waiter is closed twice (a second close would
      panic) or while parked, and each closed one was reached.  Without ISR(), each
      parked one is also still above the watermark. */
  lemma {:induction false} RunDisciplined(replicas: seq<int>, leader: int, lagTimeout: int, start: int, ops: seq<Op>)
    ensures Accounted(Run(Start(replicas, leader, lagTimeout, start), ops))
    ensures (forall k :: 0 <= k < |ops| ==> !ops[k].AskOp?) ==>
              Disciplined(Run(Start(replicas, leader, lagTimeout, start), ops))
  {
    hide Step;
    if ops != [] {
      var n := |ops| - 1;
      RunDisciplined(replicas, leader, lagTimeout, start, ops[..n]);
      StepDisciplines(Run(Start(replicas, leader, lagTimeout, start), ops[..n]), ops[n]);
    }
  }

  // ----- what becomes of each call -----

  ghost predicate Parked(s: State, id: nat) { exists w :: w in s.waiters && w.id == id }

  ghost predicate Closed(s: State, id: nat) { exists c :: c in s.closings && c.waiter.id == id }

  /** The step is a wait that finds the watermark below its target. */
  predicate Parks(s: State, op: Op) { op.WaitOp? && Step(s, op).offsets.high < op.target }

  /** A timed-out wait takes its own waiter out and no other. */
  lemma TimeOutIs(s: State, id: nat)
    ensures forall w :: w in TimeOut(s, id).waiters <==> w in s.waiters && w.id != id
    ensures TimeOut(s, id) == s.(waiters := TimeOut(s, id).waiters)
  {
    FilterKeeps(Other(id), s.waiters);
  }

  /** Every waiter of s stays parked or is closed, and nobody else is closed. */
  ghost predicate Conserves(s: State, s': State) {
    && (forall w :: w in s.waiters ==> w in s'.waiters || exists c :: c in s'.closings && c.waiter == w)
    && (forall w :: w in s'.waiters ==> w in s.waiters)
    && s.closings <= s'.closings
    && (forall c :: c in s'.closings ==> c in s.closings || c.waiter in s.waiters)
    && s'.nextId == s.nextId
  }

  lemma RefreshMoves(s: State, now: int)
    ensures Conserves(s, Refresh(s, now))
  {
    hide Filter, WatermarkOver;
    var high := Recomputed(s.offsets, now).high;
    var out := Filter(Reached(high), s.waiters);
    FilterKeeps(Above(high), s.waiters);
    FilterKeeps(Reached(high), s.waiters);
    var s', added := Refresh(s, now), Closings(out, high);
    if high != s.offsets.high {
      forall w | w in out ensures exists c :: c in s'.closings && c.waiter == w {
        var i :| 0 <= i < |out| && out[i] == w;
        assert s'.closings[|s.closings| + i] == added[i];
      }
    }
  }

  lemma MovesWith(s: State, o: Offsets, now: int)
    ensures Conserves(s, Refresh(s.(offsets := o), now))
  {
    hide Refresh;
    RefreshMoves(s.(offsets := o), now);
  }

  /** A step parks the wait that finds the watermark below its target, under the
      next id, and takes out the call that times out; otherwise calls only move
      from parked to closed. */
  lemma StepMoves(s: State, op: Op)
    ensures var s' := Step(s, op);
            if Parks(s, op) then
              exists m :: Conserves(s, m) &&
                s' == m.(waiters := m.waiters + [Waiter(s.nextId, op.target)], nextId := s.nextId + 1)
            else if op.TimeOutOp? then s' == TimeOut(s, op.id)
            else Conserves(s, s')
  {
    hide Refresh, Recomputed, Conserves, TimeOut;
    match op
    case FetchOp(broker, fetchOffset, leaderEnd, seen, now) =>
      var o := s.offsets;
      MovesWith(s, o.(followerOffset := o.followerOffset[broker := fetchOffset],
                      followerSeen := o.followerSeen[broker := seen], leaderEnd := leaderEnd), now);
    case WatermarkOp(leaderEnd, now) => MovesWith(s, s.offsets.(leaderEnd := leaderEnd), now);
    case WaitOp(target, now) =>
      var o := s.offsets.(leaderEnd := if target > s.offsets.leaderEnd then target else s.offsets.leaderEnd);
      MovesWith(s, o, now);
      var m := Refresh(s.(offsets := o), now);
      SameId(s, m);
      assert Conserves(s, m);
    case TimeOutOp(id) =>
    case AskOp(now) => NobodyMoves(s, AskISR(s, now));
  }

  lemma SameId(s: State, s': State)
    requires Conserves(s, s')
    ensures s'.nextId == s.nextId
  {}

  lemma NobodyMoves(s: State, s': State)
    requires s' == s.(offsets := s'.offsets)
    ensures Conserves(s, s')
  {}

  /** The targets of the waits that parked, in the order of their ids. */
  function Calls(s: State, ops: seq<Op>): seq<int> {
    if ops == [] then []
    else
      var n := |ops| - 1;
      Calls(s, ops[..n]) + if Parks(Run(s, ops[..n]), ops[n]) then [ops[n].target] else []
  }

  /** The parked calls that timed out. */
  ghost function GivenUp(s: State, ops: seq<Op>): set<nat> {
    if ops == [] then {}
    else
      var n := |ops| - 1;
      GivenUp(s, ops[..n]) + if ops[n].TimeOutOp? && Parked(Run(s, ops[..n]), ops[n].id) then {ops[n].id} else {}
  }

  /** Each call so far is parked, closed or given up, one of them only, and a
      parked or closed one still waits for the target it was made with. */
  ghost predicate Settled(s: State, calls: seq<int>, given: set<nat>) {
    && s.nextId == |calls|
    && (forall id: nat :: id < |calls| <==> Parked(s, id) || Closed(s, id) || id in given)
    && (forall id :: Parked(s, id) ==> !Closed(s, id) && id !in given)
    && (forall id :: Closed(s, id) ==> id !in given)
    && (forall w :: w in s.waiters ==> w.id < |calls| && calls[w.id] == w.target)
    && (forall c :: c in s.closings ==> c.waiter.id < |calls| && calls[c.waiter.id] == c.waiter.target)
  }

  /** No call is both parked and closed. */
  ghost predicate Apart(s: State) { forall w, c :: w in s.waiters && c in s.closings ==> w.id != c.waiter.id }

  lemma ConservesSettled(s: State, s': State, calls: seq<int>, given: set<nat>)
    requires Settled(s, calls, given) && Conserves(s, s') && Apart(s')
    ensures Settled(s', calls, given)
  {
    forall id: nat ensures Parked(s', id) || Closed(s', id) <==> Parked(s, id) || Closed(s, id) {
      if w :| w in s.waiters && w.id == id {
        if w !in s'.waiters { var c :| c in s'.closings && c.waiter == w; }
      }
      if c :| c in s.closings && c.waiter.id == id { assert c in s'.closings; }
    }
  }

  lemma ParkSettled(s: State, target: int, calls: seq<int>, given: set<nat>)
    requires Settled(s, calls, given)
    ensures var s' := s.(waiters := s.waiters + [Waiter(s.nextId, target)], nextId := s.nextId + 1);
            Settled(s', calls + [target], given)
  {
    var s' := s.(waiters := s.waiters + [Waiter(s.nextId, target)], nextId := s.nextId + 1);
    var w := Waiter(s.nextId, target);
    assert s'.waiters[|s.waiters|] == w;
    forall id: nat ensures Parked(s', id) <==> Parked(s, id) || id == s.nextId {
      if x :| x in s.waiters && x.id == id { assert x in s'.waiters; }
    }
    assert forall id :: Closed(s', id) <==> Closed(s, id);
  }

  lemma TimeOutSettled(s: State, id: nat, calls: seq<int>, given: set<nat>)
    requires Settled(s, calls, given)
    ensures Settled(TimeOut(s, id), calls, given + if Parked(s, id) then {id} else {})
  {
    hide Filter;
    TimeOutIs(s, id);
    var s' := TimeOut(s, id);
    hide TimeOut;
    forall x: nat ensures Parked(s', x) <==> Parked(s, x) && x != id {
      if w :| w in s.waiters && w.id == x { assert x != id ==> w in s'.waiters; }
    }
    assert forall x :: Closed(s', x) <==> Closed(s, x);
  }

  /** Over every run: each wait that found the watermark below its target is parked,
      was closed, or timed out, exactly one of them, and keeps its own target. */
  lemma {:induction false} EachCallEndsOnce(replicas: seq<int>, leader: int, lagTimeout: int, start: int, ops: seq<Op>)
    ensures var s := Start(replicas, leader, lagTimeout, start); Settled(Run(s, ops), Calls(s, ops), GivenUp(s, ops))
  {
    hide Step, Settled, Accounted, Parks;
    var s := Start(replicas, leader, lagTimeout, start);
    if ops == [] { NobodyCalled(s); }
    else {
      var n := |ops| - 1;
      EachCallEndsOnce(replicas, leader, lagTimeout, start, ops[..n]);
      RunDisciplined(replicas, leader, lagTimeout, start, ops[..n]);
      StepSettles(Run(s, ops[..n]), ops[n], Calls(s, ops[..n]), GivenUp(s, ops[..n]));
    }
  }

  lemma NobodyCalled(s: State)
    requires s.waiters == [] && s.closings == [] && s.nextId == 0
    ensures Settled(s, [], {})
  {}

  lemma StepSettles(s: State, op: Op, calls: seq<int>, given: set<nat>)
    requires Accounted(s) && Settled(s, calls, given)
    ensures Settled(Step(s, op), calls + (if Parks(s, op) then [op.target] else []),
                    given + if op.TimeOutOp? && Parked(s, op.id) then {op.id} else {})
  {
    hide Step, Settled, Conserves, TimeOut, Parked, DistinctIds;
    StepMoves(s, op);
    StepDisciplines(s, op);
    assert calls + [] == calls && given + {} == given;
    if Parks(s, op) {
      var m :| Conserves(s, m) &&
        Step(s, op) == m.(waiters := m.waiters + [Waiter(s.nextId, op.target)], nextId := s.nextId + 1);
      SameId(s, m);
      ConservesSettled(s, m, calls, given);
      ParkSettled(m, op.target, calls, given);
    } else if op.TimeOutOp? { TimeOutSettled(s, op.id, calls, given); }
    else { ConservesSettled(s, Step(s, op), calls, given); }
  }

  // ----- asking for the ISR -----

  /** Something still holds the watermark below the waiter: the leader's end, or
      a follower that is in sync now. */
  ghost predicate HeldBack(o: Offsets, now: int, w: Waiter) {
    w.target > o.leaderEnd || exists b :: Bounds(o, b, now) && OffsetOf(o, b) < w.target
  }

  /** Asking for the ISR keeps the discipline exactly when every parked waiter is
      still held back; otherwise a wakeup is due that nobody sends. */
  lemma AskISRDisciplines(s: State, now: int)
    requires Disciplined(s)
    ensures Disciplined(AskISR(s, now)) <==> forall w :: w in s.waiters ==> HeldBack(s.offsets, now, w)
  {
    hide WatermarkOver;
    RecomputedIs(s.offsets, now);
    var high := Recomputed(s.offsets, now).high;
    forall w | w in s.waiters ensures w.target > high <==> HeldBack(s.offsets, now, w) {
      if w.target > high && high != s.offsets.leaderEnd {
        var b :| Bounds(s.offsets, b, now) && high == OffsetOf(s.offsets, b);
      }
    }
  }

  /** Without ISR(), over any run on a clock that does not go back: whoever is parked is
      held back by the leader's end or by a follower that is in sync, so no wakeup is lost. */
  lemma ParkedAreHeldBack(replicas: seq<int>, leader: int, lagTimeout: int, start: int, ops: seq<Op>)
    requires ClockRuns(start, ops) && forall k :: 0 <= k < |ops| ==> !ops[k].AskOp?
    ensures var s := Run(Start(replicas, leader, lagTimeout, start), ops);
            forall w :: w in s.waiters ==> HeldBack(s.offsets, LastTime(start, ops), w)
  {
    hide Run, Start, LastTime;
    RunDisciplined(replicas, leader, lagTimeout, start, ops);
    assert ops[..|ops|] == ops;
    RunWatermark(replicas, leader, lagTimeout, start, ops, |ops|);
    var s, now := Run(Start(replicas, leader, lagTimeout, start), ops), LastTime(start, ops);
    forall w | w in s.waiters ensures HeldBack(s.offsets, now, w) {
      if s.offsets.high != s.offsets.leaderEnd {
        var b :| Bounds(s.offsets, b, now) && s.offsets.high == OffsetOf(s.offsets, b);
      }
    }
  }

  /** A new leader waits for every follower, from offset 0, until the lag timeout. */
  lemma StartIs(replicas: seq<int>, leader: int, lagTimeout: int, start: int, now: int)
    requires start <= now
    ensures var o := Start(replicas, leader, lagTimeout, start).offsets;
            && o.leaderEnd == 0
            && forall b :: OffsetOf(o, b) == 0 &&
                 (Bounds(o, b, now) <==> b in replicas && b != leader && now - start <= lagTimeout)
  {
    hide WatermarkOver;
  }

  /** Every moment up to the end of the run is disciplined. */
  ghost predicate DisciplinedThroughout(s: State, ops: seq<Op>) {
    Disciplined(Run(s, ops)) && (ops == [] || DisciplinedThroughout(s, ops[..|ops| - 1]))
  }

  /** Whenever somebody asks for the ISR, every parked waiter is still held back. */
  ghost predicate AllHeldBack(s: State, ops: seq<Op>) {
    ops == [] ||
    (AllHeldBack(s, ops[..|ops| - 1]) && HeldBackAt(Run(s, ops[..|ops| - 1]), ops[|ops| - 1]))
  }

  ghost predicate HeldBackAt(s: State, op: Op) {
    op.AskOp? ==> forall w :: w in s.waiters ==> HeldBack(s.offsets, op.now, w)
  }

  /** Over any run with ISR() steps: disciplined throughout if and only if no ISR()
      step finds a waiter that nothing holds back. */
  lemma {:induction false} DisciplinedIff(replicas: seq<int>, leader: int, lagTimeout: int, start: int, ops: seq<Op>)
    ensures var s := Start(replicas, leader, lagTimeout, start); DisciplinedThroughout(s, ops) <==> AllHeldBack(s, ops)
  {
    hide Step, Disciplined, HeldBackAt;
    var s := Start(replicas, leader, lagTimeout, start);
    if ops == [] { RunDisciplined(replicas, leader, lagTimeout, start, []); }
    else {
      var n := |ops| - 1;
      DisciplinedIff(replicas, leader, lagTimeout, start, ops[..n]);
      if DisciplinedThroughout(s, ops[..n]) { StepDisciplinesIff(Run(s, ops[..n]), ops[n]); }
    }
  }

  lemma StepDisciplinesIff(s: State, op: Op)
    requires Disciplined(s)
    ensures Disciplined(Step(s, op)) <==> HeldBackAt(s, op)
  {
    hide AskISR, HeldBack, Numbered, Refresh, Wait, TimeOut;
    if op.AskOp? { AskISRDisciplines(s, op.now); } else { StepDisciplines(s, op); }
  }

  /** A wait for offset 5 is parked; the follower falls behind; somebody asks for
      the ISR, which raises the watermark to 5; the next recomputation sees no
      change, so the waiter stays parked although it is reached. */
  lemma LostWakeup()
    ensures var parked := Wait(Start([1, 2], 1, 10, 0), 5, 0);
            var missed := SetLeaderEnd(AskISR(parked, 20), 5, 20);
            missed.waiters == [Waiter(0, 5)] && missed.offsets.high == 5
  {
    var start := Start([1, 2], 1, 10, 0);
    TwoReplicas(start.offsets.(leaderEnd := 5), 0);
    var parked := Wait(start, 5, 0);
    TwoReplicas(parked.offsets, 20);
    var asked := AskISR(parked, 20);
    TwoReplicas(asked.offsets, 20);
    assert asked.offsets.(leaderEnd := 5) == asked.offsets;
  }

  lemma TwoReplicas(o: Offsets, now: int)
    requires o.replicas == [1, 2] && o.leader == 1
    ensures WatermarkOver(o, o.replicas, now) ==
            if InSync(o, 2, now) && OffsetOf(o, 2) < o.leaderEnd then OffsetOf(o, 2) else o.leaderEnd
  {
    assert o.replicas[..1] == [1] && [1][..0] == [];
    assert WatermarkOver(o, [1], now) == o.leaderEnd;
  }

  /** The watermark is not monotone.  A follower that fell out of the in-sync set
      lowers it by fetching again, and so does a reading of the log end that was
      taken before another produce. */
  lemma WatermarkFalls()
    ensures var s := SetLeaderEnd(Start([1, 2], 1, 10, 0), 5, 20);
            s.offsets.high == 5 && RecordFetch(s, 2, 3, 5, 21, 21).offsets.high == 3
    ensures var s := Wait(Start([1, 2], 1, 10, 0), 6, 20);
            s.offsets.high == 6 && SetLeaderEnd(s, 5, 20).offsets.high == 5
  {
    FetchLowers();
    EndLowers();
  }

  lemma FetchLowers()
    ensures var s := SetLeaderEnd(Start([1, 2], 1, 10, 0), 5, 20);
            s.offsets.high == 5 && RecordFetch(s, 2, 3, 5, 21, 21).offsets.high == 3
  {
    hide Filter;
    var start := Start([1, 2], 1, 10, 0);
    TwoReplicas(start.offsets.(leaderEnd := 5), 20);
    var o := SetLeaderEnd(start, 5, 20).offsets;
    TwoReplicas(o.(followerOffset := o.followerOffset[2 := 3], followerSeen := o.followerSeen[2 := 21],
                   leaderEnd := 5), 21);
  }

  lemma EndLowers()
    ensures var s := Wait(Start([1, 2], 1, 10, 0), 6, 20);
            s.offsets.high == 6 && SetLeaderEnd(s, 5, 20).offsets.high == 5
  {
    hide Filter;
    var start := Start([1, 2], 1, 10, 0);
    TwoReplicas(start.offsets.(leaderEnd := 6), 20);
    TwoReplicas(Wait(start, 6, 20).offsets.(leaderEnd := 5), 20);
  }

  /** What a step says is not below the watermark: the end it reports, and the
      fetch offset of a follower that bounds the watermark from then on. */
  predicate NotBelow(o: Offsets, op: Op) {
    match op
    case FetchOp(broker, fetchOffset, leaderEnd, seen, now) =>
      && leaderEnd >= o.high
      && (broker in o.replicas && broker != o.leader && now - seen <= o.lagTimeout ==> fetchOffset >= o.high)
    case WatermarkOp(leaderEnd, _) => leaderEnd >= o.high
    case WaitOp(_, _) => true
    case TimeOutOp(_) => true
    case AskOp(_) => true
  }

  function TimeOf(op: Op, before: int): int {
    match op
    case FetchOp(_, _, _, _, now) => now
    case WatermarkOp(_, now) => now
    case WaitOp(_, now) => now
    case TimeOutOp(_) => before
    case AskOp(now) => now
  }

  /** The offsets that a step leaves to be recomputed. */
  function Noted(o: Offsets, op: Op): Offsets {
    match op
    case FetchOp(broker, fetchOffset, leaderEnd, seen, _) =>
      o.(followerOffset := o.followerOffset[broker := fetchOffset],
         followerSeen := o.followerSeen[broker := seen], leaderEnd := leaderEnd)
    case WatermarkOp(leaderEnd, _) => o.(leaderEnd := leaderEnd)
    case WaitOp(target, _) => o.(leaderEnd := if target > o.leaderEnd then target else o.leaderEnd)
    case TimeOutOp(_) => o
    case AskOp(_) => o
  }

  lemma StepOffsets(s: State, op: Op)
    ensures Step(s, op).offsets ==
            if op.TimeOutOp? then s.offsets else Recomputed(Noted(s.offsets, op), TimeOf(op, 0))
  {
    hide WatermarkOver, Filter;
  }

  /** Every step keeps the watermark from falling exactly when nothing it reports
      is below it: time only takes followers out of the in-sync set. */
  lemma WatermarkKeptIff(s: State, op: Op, before: int)
    requires IsWatermark(s.offsets, before, s.offsets.high) && before <= TimeOf(op, before)
    ensures Step(s, op).offsets.high >= s.offsets.high <==> NotBelow(s.offsets, op)
    ensures IsWatermark(Step(s, op).offsets, TimeOf(op, before), Step(s, op).offsets.high)
  {
    hide WatermarkOver, Step;
    StepOffsets(s, op);
    if !op.TimeOutOp? {
      var o, o', now := s.offsets, Noted(s.offsets, op), TimeOf(op, before);
      RecomputedIs(o', now);
      OthersBound(o, op, before);
      if op.FetchOp? { assert OffsetOf(o', op.broker) == op.fetchOffset; }
      SameWatermark(o', Recomputed(o', now), now);
    }
  }

  lemma OthersBound(o: Offsets, op: Op, before: int)
    requires before <= TimeOf(op, before)
    ensures forall b :: Bounds(Noted(o, op), b, TimeOf(op, before)) && !(op.FetchOp? && b == op.broker) ==>
              Bounds(o, b, before) && OffsetOf(Noted(o, op), b) == OffsetOf(o, b)
  {}

  /** The watermark is no part of what it is computed from. */
  lemma SameWatermark(o: Offsets, o': Offsets, now: int)
    requires o' == o.(high := o'.high) && IsWatermark(o, now, o'.high)
    ensures IsWatermark(o', now, o'.high)
  {
    assert forall b :: Bounds(o', b, now) <==> Bounds(o, b, now);
    assert forall b :: OffsetOf(o', b) == OffsetOf(o, b);
  }

  /** The time of the last recomputation of a run. */
  function LastTime(start: int, ops: seq<Op>): int {
    if ops == [] then start else TimeOf(ops[|ops| - 1], LastTime(start, ops[..|ops| - 1]))
  }

  ghost predicate ClockRuns(start: int, ops: seq<Op>) {
    forall k :: 0 <= k < |ops| ==> LastTime(start, ops[..k]) <= LastTime(start, ops[..k + 1])
  }

  /** Over any run on a clock that does not go back: the watermark never falls
      exactly when no step reports anything below it. */
  lemma {:induction false} NeverFallsIff(replicas: seq<int>, leader: int, lagTimeout: int, start: int, ops: seq<Op>)
    requires ClockRuns(start, ops)
    ensures var s := Start(replicas, leader, lagTimeout, start);
            (forall k :: 0 <= k < |ops| ==> StaysUp(s, ops, k)) <==>
            (forall k :: 0 <= k < |ops| ==> ReportsNotBelow(s, ops, k))
  {
    hide NotBelow, Step, Start;
    var s := Start(replicas, leader, lagTimeout, start);
    forall k | 0 <= k < |ops|
      ensures StaysUp(s, ops, k) <==> ReportsNotBelow(s, ops, k)
    {
      assert ops[..k + 1][..k] == ops[..k] && ops[..k + 1][k] == ops[k];
      RunWatermark(replicas, leader, lagTimeout, start, ops, k);
      assert LastTime(start, ops[..k]) <= LastTime(start, ops[..k + 1]);
      WatermarkKeptIff(Run(s, ops[..k]), ops[k], LastTime(start, ops[..k]));
    }
  }

  /** Step k of the run does not lower the watermark. */
  ghost predicate StaysUp(s: State, ops: seq<Op>, k: nat)
    requires k < |ops|
  {
    Run(s, ops[..k]).offsets.high <= Run(s, ops[..k + 1]).offsets.high
  }

  ghost predicate ReportsNotBelow(s: State, ops: seq<Op>, k: nat)
    requires k < |ops|
  {
    NotBelow(Run(s, ops[..k]).offsets, ops[k])
  }

  lemma {:induction false} RunWatermark(replicas: seq<int>, leader: int, lagTimeout: int, start: int, ops: seq<Op>,
                                        k: nat)
    requires ClockRuns(start, ops) && k <= |ops|
    ensures var o := Run(Start(replicas, leader, lagTimeout, start), ops[..k]).offsets;
            IsWatermark(o, LastTime(start, ops[..k]), o.high)
  {
    hide NotBelow, Step, IsWatermark;
    var s := Start(replicas, leader, lagTimeout, start);
    if k == 0 { StartWatermark(replicas, leader, lagTimeout, start); }
    else {
      RunWatermark(replicas, leader, lagTimeout, start, ops, k - 1);
      assert ops[..k][..k - 1] == ops[..k - 1];
      assert LastTime(start, ops[..k - 1]) <= LastTime(start, ops[..k - 1 + 1]);
      WatermarkKeptIff(Run(s, ops[..k - 1]), ops[k - 1], LastTime(start, ops[..k - 1]));
    }
  }

  lemma StartWatermark(replicas: seq<int>, leader: int, lagTimeout: int, now: int)
    ensures var o := NewOffsets(replicas, leader, lagTimeout, now); IsWatermark(o, now, o.high)
  {
    hide WatermarkOver;
    var followers := set b | b in replicas && b != leader;
    var o := Offsets(replicas, leader, map b | b in followers :: 0, map b | b in followers :: now, 0, 0, lagTimeout);
    RecomputedIs(o, now);
    SameWatermark(o, Recomputed(o, now), now);
  }

  // ----- the object -----

  class PartitionState {
    const replicas: seq<int>
    const leaderID: int
    const lagTimeout: int
    var followerOffset: map<int, int>
    var followerSeen: map<int, int>
    var leaderEndOffset: int
    var highWatermark: int
    var waiters: array<Waiter>      // backing array of the waiter slice
    var count: nat                  // length of the waiter slice
    var nextId: nat
    ghost var closings: seq<Closing>

    ghost predicate Valid()
      reads this
    {
      count <= waiters.Length
    }

    ghost function OffsetsView(): Offsets
      reads this
    {
      Offsets(replicas, leaderID, followerOffset, followerSeen, leaderEndOffset, highWatermark, lagTimeout)
    }

    ghost function View(): State
      requires Valid()
      reads this, waiters
    {
      State(OffsetsView(), waiters[..count], closings, nextId)
    }

    constructor (replicas: seq<int>, leaderID: int, lagTimeout: int, now: int)
      ensures Valid() && fresh(waiters) && View() == Start(replicas, leaderID, lagTimeout, now)
    {
      this.replicas, this.leaderID, this.lagTimeout := replicas, leaderID, lagTimeout;
      var followers := set b | b in replicas && b != leaderID;
      followerOffset := map b | b in followers :: 0;
      followerSeen := map b | b in followers :: now;
      leaderEndOffset, highWatermark, count, nextId, closings := 0, 0, 0, 0, [];
      waiters := new Waiter[0];
      new;
      var _ := Recompute(now);
    }

    method Recompute(now: int) returns (changed: bool)
      modifies this`highWatermark
      ensures OffsetsView() == Recomputed(old(OffsetsView()), now)
      ensures changed <==> highWatermark != old(highWatermark)
    {
      ghost var o := OffsetsView();
      var next := leaderEndOffset;
      for i := 0 to |replicas|
        invariant next == WatermarkOver(o, replicas[..i], now)
        invariant OffsetsView() == o
      {
        var b := replicas[i];
        assert replicas[..i + 1][..i] == replicas[..i];
        if b == leaderID { continue; }
        if b !in followerSeen || now - followerSeen[b] > lagTimeout { continue; }
        var offset := if b in followerOffset then followerOffset[b] else 0;
        if offset < next { next := offset; }
      }
      assert replicas[..|replicas|] == replicas;
      changed := next != highWatermark;
      highWatermark := next;
    }

    /** Filters the waiter slice within its own backing array. */
    method ReleaseWaiters()
      requires Valid()
      modifies this`count, this`closings, waiters
      ensures Valid() && View() == Release(old(View()))
    {
      hide Filter, Closings;
      ghost var ws, before, kept := waiters[..count], closings, [];
      NothingLeft(ws, highWatermark);
      var remaining, i := 0, 0;
      while i < count
        invariant 0 <= remaining <= i <= count == old(count) == |ws|
        invariant forall x :: i <= x < count ==> waiters[x] == ws[x]
        invariant kept == Filter(Above(highWatermark), ws[..i])
        invariant |kept| == remaining && forall x :: 0 <= x < remaining ==> waiters[x] == kept[x]
        invariant closings == before + Closings(Filter(Reached(highWatermark), ws[..i]), highWatermark)
      {
        var w := waiters[i];
        FilterStep(Above(highWatermark), ws, i);
        FilterStep(Reached(highWatermark), ws, i);
        if w.target <= highWatermark {
          ClosingsStep(Filter(Reached(highWatermark), ws[..i]), w, highWatermark);
          closings := closings + [Closing(w, highWatermark)];  // close(waiter.done)
        } else {
          waiters[remaining] := w;
          kept := kept + [w];
          remaining := remaining + 1;
        }
        i := i + 1;
      }
      assert ws[..count] == ws;
      count := remaining;
      assert waiters[..count] == kept;
    }

    method RemoveWaiter(id: nat)
      requires Valid()
      modifies this`count, waiters
      ensures Valid() && View() == TimeOut(old(View()), id)
    {
      hide Filter;
      ghost var ws := waiters[..count];
      NothingFiltered(Other(id), ws);
      var remaining, i := 0, 0;
      while i < count
        invariant 0 <= remaining <= i <= count == old(count) == |ws|
        invariant forall x :: i <= x < count ==> waiters[x] == ws[x]
        invariant waiters[..remaining] == Filter(Other(id), ws[..i])
      {
        var w := waiters[i];
        assert w == ws[i];
        FilterStep(Other(id), ws, i);
        if w.id != id {
          ghost var kept := waiters[..remaining];
          waiters[remaining] := w;
          assert waiters[..remaining + 1] == kept + [w];
          remaining := remaining + 1;
        }
        i := i + 1;
      }
      assert ws[..count] == ws;
      count := remaining;
    }

    /** Appends to the slice, moving to a larger array when it is full. */
    method Park(target: int)
      requires Valid()
      modifies this`waiters, this`count, this`nextId, waiters
      ensures Valid() && (waiters == old(waiters) || fresh(waiters))
      ensures View() == old(View()).(waiters := old(View()).waiters + [Waiter(old(nextId), target)],
                                     nextId := old(nextId) + 1)
    {
      ghost var ws := waiters[..count];
      if count == waiters.Length {
        var was := waiters;
        var larger := new Waiter[2 * count + 1](i reads was => if 0 <= i < was.Length then was[i] else Waiter(0, 0));
        waiters := larger;
        assert waiters[..count] == ws;
      }
      waiters[count] := Waiter(nextId, target);
      count := count + 1;
      nextId := nextId + 1;
      assert waiters[..count] == ws + [Waiter(old(nextId), target)];
    }

    method RecordFollowerFetch(brokerID: int, fetchOffset: int, leaderEnd: int, seen: int, now: int)
      requires Valid()
      modifies this, waiters
      ensures Valid() && waiters == old(waiters)
      ensures View() == RecordFetch(old(View()), brokerID, fetchOffset, leaderEnd, seen, now)
    {
      hide WatermarkOver, Release;
      followerOffset := followerOffset[brokerID := fetchOffset];
      followerSeen := followerSeen[brokerID := seen];
      leaderEndOffset := leaderEnd;
      var changed := Recompute(now);
      if changed { ReleaseWaiters(); }
    }

    method HighWatermark(leaderEnd: int, now: int) returns (high: int)
      requires Valid()
      modifies this, waiters
      ensures Valid() && waiters == old(waiters)
      ensures View() == SetLeaderEnd(old(View()), leaderEnd, now) && high == View().offsets.high
    {
      hide WatermarkOver, Release;
      leaderEndOffset := leaderEnd;
      var changed := Recompute(now);
      if changed { ReleaseWaiters(); }
      high := highWatermark;
    }

    /** The locked part of WaitForHighWatermark: true means no need to wait. */
    method BeginWait(target: int, now: int) returns (reached: bool)
      requires Valid()
      modifies this, waiters
      ensures Valid() && (waiters == old(waiters) || fresh(waiters))
      ensures View() == Wait(old(View()), target, now)
      ensures reached <==> View().offsets.high >= target
    {
      hide WatermarkOver, Release;
      if target > leaderEndOffset { leaderEndOffset := target; }
      var changed := Recompute(now);
      if changed { ReleaseWaiters(); }
      if highWatermark >= target { return true; }
      Park(target);
      return false;
    }

    /** Recomputes without releasing, and lists the leader and the in-sync followers. */
    method ISR(now: int, later: int) returns (isr: seq<int>)
      requires Valid()
      modifies this`highWatermark
      ensures Valid() && View() == AskISR(old(View()), now)
      ensures isr != [] && isr[0] == leaderID
      ensures forall b :: b in isr[1..] <==> Bounds(OffsetsView(), b, later)
    {
      hide WatermarkOver;
      var _ := Recompute(now);
      isr := [leaderID];
      for i := 0 to |replicas|
        invariant isr != [] && isr[0] == leaderID
        invariant forall b :: b in isr[1..] <==> b in replicas[..i] && b != leaderID && InSync(OffsetsView(), b, later)
      {
        var b := replicas[i];
        assert replicas[..i + 1] == replicas[..i] + [b];
        if b != leaderID && b in followerSeen && later - followerSeen[b] <= lagTimeout {
          assert (isr + [b])[1..] == isr[1..] + [b];
          isr := isr + [b];
        }
      }
      assert replicas[..|replicas|] == replicas;
    }
  }
}
