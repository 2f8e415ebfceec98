/**
 The timers of a group: the join timer that ends a rebalance, replaced ones that
 still run, and a session timer for each member that is not waiting to join.
 */
module GroupTimers {
  import opened Lists
  import opened Wire
  import opened GroupModel

  /** `armed`: the group's current join timer is pending; `stale` counts older ones that are. */
  datatype Timed = Timed(group: Group, armed: bool, stale: nat, sessions: set<Bytes>)

  datatype Event =
    | Do(op: Op)             // a call, or a parked call that receives
    | Expire(id: Bytes)      // a session timer fires
    | Fire | FireStale       // a join timer fires

  const Unused := Timed(Fresh, false, 0, {})

  predicate Possible(t: Timed, e: Event) {
    match e
    case Do(op) => op != CompleteOp && Named(op)
    case Expire(id) => id in t.sessions
    case Fire => t.armed
    case FireStale => t.stale > 0
  }

  /** The transition of the group that an event comes to. */
  function OpOf(e: Event): Op {
    match e
    case Do(op) => op
    case Expire(id) => RemoveOp(id)
    case Fire => CompleteOp
    case FireStale => CompleteOp
  }

  /** A join, or a removal that leaves members, starts a rebalance. */
  predicate Starts(g: Group, op: Op) {
    || (op.JoinOp? && g.phase != Preparing)
    || (op.RemoveOp? && op.id in g.members && g.members - {op.id} != map[] &&
        (g.phase == Stable || g.phase == Completing))
  }

  /** A join stops the member's session timer; a completed join and the leader's Sync
      arm everybody's, any other Sync and a heartbeat that succeeds their member's. */
  function Sessions(g: Group, op: Op, sessions: set<Bytes>): set<Bytes> {
    match op
    case JoinOp(id, _, _) => sessions - {id}
    case SyncOp(id, generation, _) =>
      if id !in g.members || generation != g.generation then sessions
      else if id == g.leader then g.members.Keys
      else sessions + {id}
    case HeartbeatOp(id, generation) => if Heartbeat(g, id, generation) == ErrNone then sessions + {id} else sessions
    case RemoveOp(id) => sessions - {id}
    case CompleteOp => if g.joinOrder == [] then sessions else g.members.Keys
    case TakeJoin(_) => sessions
    case TakeSync(_) => sessions
  }

  /** Leaving stops the join timer that it replaces; joining does not. */
  ghost function After(t: Timed, e: Event): Timed
    requires WellFormed(t.group) && Possible(t, e)
  {
    var op := OpOf(e);
    var g', sessions := Step(t.group, op), Sessions(t.group, op, t.sessions);
    match e
    case Fire => Timed(g', false, t.stale, sessions)
    case FireStale => Timed(g', t.armed, t.stale - 1, sessions)
    case _ =>
      var replaced := op.JoinOp? && Starts(t.group, op) && t.armed;
      Timed(g', t.armed || Starts(t.group, op), if replaced then t.stale + 1 else t.stale, sessions)
  }

  /** A rebalance has its join timer pending; otherwise every member has a session timer. */
  ghost predicate Watched(t: Timed) {
    && WellFormed(t.group)
    && t.sessions <= t.group.members.Keys
    && (if t.group.phase == Preparing then t.armed else t.sessions == t.group.members.Keys)
  }

  lemma MembersAfter(g: Group, op: Op)
    requires WellFormed(g) && Named(op)
    ensures var h := Step(g, op);
            && WellFormed(h)
            && (op.JoinOp? ==> h.members.Keys == g.members.Keys + {op.id} && h.phase == Preparing)
            && (op.RemoveOp? ==> h.members.Keys == g.members.Keys - {op.id})
            && (!op.JoinOp? && !op.RemoveOp? ==> h.members.Keys == g.members.Keys)
  {
    hide Signed32, Distinct, Results, ResultFor, Without, Listed, WellFormed;
    StepShaped(g, op);
    if op == CompleteOp { CompleteKeepsMembers(g); }
  }

  lemma CompleteKeepsMembers(g: Group)
    requires WellFormed(g)
    ensures CompleteJoin(g).members.Keys == g.members.Keys
    ensures CompleteJoin(g).phase == Preparing ==> g.joinOrder == [] && g.phase == Preparing
  {
    hide Signed32, Distinct, Results, ResultFor;
  }

  lemma PhaseMoves(g: Group, op: Op)
    requires WellFormed(g) && Named(op)
    ensures var h := Step(g, op);
            && (h.phase == Preparing ==> g.phase == Preparing || Starts(g, op))
            && (h.phase != Preparing && g.phase == Preparing ==>
                  Sessions(g, op, {}) == h.members.Keys || h.members == map[])
            && (h.phase == Preparing && op == CompleteOp ==> g.members == map[] && g.phase == Preparing)
  {
    hide Signed32, Distinct, Results, ResultFor, Without, Assigned, FannedOut;
    MembersAfter(g, op);
    if op == CompleteOp { Everybody(g); }
  }

  lemma Everybody(g: Group)
    requires WellFormed(g)
    ensures g.joinOrder == [] <==> g.members == map[]
  {
    hide Distinct;
    if g.members != map[] { Populated(g); }
    if g.joinOrder != [] { assert g.joinOrder[0] in g.members; }
  }

  /** Every event keeps the watch. */
  lemma StaysWatched(t: Timed, e: Event)
    requires Watched(t) && Possible(t, e)
    ensures Watched(After(t, e))
  {
    hide Step, WellFormed;
    var g, op := t.group, OpOf(e);
    assert Named(op);
    MembersAfter(g, op);
    PhaseMoves(g, op);
    EmptyHasNoPhase(g);
  }

  lemma EmptyHasNoPhase(g: Group)
    requires WellFormed(g)
    ensures g.members == map[] ==> g.phase == Empty && g.joinOrder == []
    ensures g.joinOrder == [] ==> g.members == map[]
  {
    Everybody(g);
  }

  ghost predicate AllPossible(es: seq<Event>)
    decreases |es|, 0
  {
    es == [] || (AllPossible(es[..|es| - 1]) && Possible(Run(es[..|es| - 1]), es[|es| - 1]))
  }

  /** Any events from an unused group id on, each possible when it comes. */
  ghost function Run(es: seq<Event>): (t: Timed)
    requires AllPossible(es)
    ensures Watched(t)
    decreases |es|, 1
  {
    if es == [] then
      FreshIsGood();
      Unused
    else
      StaysWatched(Run(es[..|es| - 1]), es[|es| - 1]);
      After(Run(es[..|es| - 1]), es[|es| - 1])
  }

  function Ops(es: seq<Event>): (ops: seq<Op>)
    ensures |ops| == |es|
  {
    seq(|es|, i requires 0 <= i < |es| => OpOf(es[i]))
  }

  /** The group goes through a run of its own transitions, so all that holds of those
      holds with timers too. */
  lemma {:induction false} TimedIsRun(es: seq<Event>)
    requires AllPossible(es)
    ensures WellFormed(Fresh) && AllNamed(Ops(es)) && Run(es).group == GroupModel.Run(Fresh, Ops(es))
  {
    FreshIsGood();
    hide Step, WellFormed;
    if es != [] {
      var n := |es| - 1;
      TimedIsRun(es[..n]);
      assert Ops(es)[..n] == Ops(es[..n]) && Named(OpOf(es[n]));
      forall i | 0 <= i < |es| ensures Named(Ops(es)[i]) { assert i < n ==> Ops(es)[i] == Ops(es[..n])[i]; }
    }
  }

  /** Nobody is forgotten: in every reachable group each member will be expelled unless
      it is heard from, or a join timer is pending that ends the wait it is in. */
  lemma NobodyForgotten(es: seq<Event>, id: Bytes)
    requires AllPossible(es) && id in Run(es).group.members
    ensures Possible(Run(es), Expire(id)) || (Possible(Run(es), Fire) && Run(es).group.phase == Preparing)
    ensures Run(es).armed ==> After(Run(es), Fire).group.phase != Preparing
  {
    hide WellFormed;
    var t := Run(es);
    if t.armed {
      PhaseMoves(t.group, CompleteOp);
      EmptyHasNoPhase(t.group);
    }
  }
}
