/** Ping-based liveness and the controller it elects. */
module Liveness {
  /** One peer: what the monitor remembers, and the callbacks it has fired (true for onUp). */
  datatype Peer = Peer(alive: bool, misses: nat, fired: seq<bool>)

  function Missed(p: Peer, failAfter: int): Peer {
    var misses := p.misses + 1;
    if misses >= failAfter && p.alive then Peer(false, misses, p.fired + [false]) else p.(misses := misses)
  }

  function Answered(p: Peer): Peer {
    Peer(true, 0, if p.alive then p.fired else p.fired + [true])
  }

  /** A peer that was a member from the start, after these pings (true for an answer). */
  function After(pings: seq<bool>, failAfter: int): Peer {
    if pings == [] then Peer(true, 0, [])
    else if pings[|pings| - 1] then Answered(After(pings[..|pings| - 1], failAfter))
    else Missed(After(pings[..|pings| - 1], failAfter), failAfter)
  }

  function TrailingMisses(pings: seq<bool>): nat {
    if pings == [] || pings[|pings| - 1] then 0 else 1 + TrailingMisses(pings[..|pings| - 1])
  }

  /** Down first, then up, then down, and so on. */
  ghost predicate Alternates(fired: seq<bool>) {
    forall i :: 0 <= i < |fired| ==> fired[i] == (i % 2 == 1)
  }

  /** The counter is the trailing run of misses, a peer is alive exactly while
      that run is short, and the callbacks strictly alternate from onDown. */
  lemma {:induction false} CounterRefines(pings: seq<bool>, failAfter: int)
    requires failAfter >= 1
    ensures var p := After(pings, failAfter);
            && p.misses == TrailingMisses(pings)
            && (p.alive <==> TrailingMisses(pings) < failAfter)
            && Alternates(p.fired)
            && (p.alive <==> |p.fired| % 2 == 0)
  {
    if pings != [] { CounterRefines(pings[..|pings| - 1], failAfter); }
  }

  lemma NextPing(pings: seq<bool>, ping: bool, failAfter: int)
    ensures After(pings + [ping], failAfter) ==
            if ping then Answered(After(pings, failAfter)) else Missed(After(pings, failAfter), failAfter)
  {
    assert (pings + [ping])[..|pings|] == pings;
  }

  // ----- the controller -----

  /** The highest live id, or -1. */
  ghost predicate IsController(live: set<int>, id: int) {
    && (id == -1 || id in live)
    && id >= -1
    && forall b :: b in live ==> b <= id || b < 0
  }

  /** Brokers that see the same live set name the same controller. */
  lemma OneController(live: set<int>, a: int, b: int)
    requires IsController(live, a) && IsController(live, b)
    ensures a == b
  {}

  // ----- the object -----

  /** The monitor's maps, with the pings and callbacks they stand for. */
  datatype Table = Table(alive: map<int, bool>, misses: map<int, int>,
                         pings: map<int, seq<bool>>, fired: map<int, seq<bool>>)

  function PeerOf(t: Table, id: int): Peer {
    Peer(id in t.alive && t.alive[id],
         if id in t.misses && t.misses[id] >= 0 then t.misses[id] else 0,
         if id in t.fired then t.fired[id] else [])
  }

  ghost predicate Tracked(t: Table, failAfter: int) {
    && t.pings.Keys == t.alive.Keys == t.fired.Keys
    && (forall id :: id in t.misses ==> t.misses[id] >= 0)
    && forall id :: id in t.pings ==> PeerOf(t, id) == After(t.pings[id], failAfter)
  }

  function Put(t: Table, id: int, p: Peer, ping: bool): Table {
    Table(t.alive[id := p.alive], t.misses[id := p.misses],
          t.pings[id := (if id in t.pings then t.pings[id] else []) + [ping]], t.fired[id := p.fired])
  }

  lemma PutTracks(t: Table, id: int, ping: bool, failAfter: int)
    requires Tracked(t, failAfter) && id in t.alive
    ensures id in t.pings && id in t.fired && (id in t.misses ==> t.misses[id] >= 0)
    ensures var p := if ping then Answered(PeerOf(t, id)) else Missed(PeerOf(t, id), failAfter);
            Tracked(Put(t, id, p, ping), failAfter)
  {
    hide After;
    NextPing(t.pings[id], ping, failAfter);
    var t' := Put(t, id, if ping then Answered(PeerOf(t, id)) else Missed(PeerOf(t, id), failAfter), ping);
    forall b | b in t'.pings ensures PeerOf(t', b) == After(t'.pings[b], failAfter) {
      if b != id { assert PeerOf(t, b) == After(t.pings[b], failAfter); }
    }
  }

  class LivenessMonitor {
    const self: int
    const members: seq<int>
    const failAfter: int
    var alive: map<int, bool>
    var misses: map<int, int>
    ghost var pings: map<int, seq<bool>>
    ghost var fired: map<int, seq<bool>>

    ghost function View(): Table
      reads this
    {
      Table(alive, misses, pings, fired)
    }

    ghost predicate Valid()
      reads this
    {
      failAfter >= 1 && Tracked(View(), failAfter) && self in alive && forall id :: id in members ==> id in alive
    }

    constructor (self: int, members: seq<int>, failAfter: int)
      ensures Valid() && this.self == self && this.members == members
      ensures this.failAfter == (if failAfter <= 0 then 1 else failAfter)
      ensures forall id :: id in pings ==> pings[id] == []
    {
      this.self, this.members := self, members;
      this.failAfter := if failAfter <= 0 then 1 else failAfter;
      var ids := {self} + set b | b in members;
      alive := map id | id in ids :: true;
      misses := map[];
      pings := map id | id in ids :: [];
      fired := map id | id in ids :: [];
    }

    method RecordMiss(id: int) returns (down: bool)
      requires Valid() && id in members
      modifies this
      ensures Valid() && View() == Put(old(View()), id, Missed(PeerOf(old(View()), id), failAfter), false)
      ensures down <==> old(alive[id]) && !alive[id]
    {
      hide Tracked;
      PutTracks(View(), id, false, failAfter);
      down := false;
      misses := misses[id := (if id in misses then misses[id] else 0) + 1];
      pings := pings[id := pings[id] + [false]];
      if misses[id] >= failAfter && alive[id] {
        alive := alive[id := false];
        fired := fired[id := fired[id] + [false]];
        down := true;
      }
      assert View() == Put(old(View()), id, Missed(PeerOf(old(View()), id), failAfter), false);
    }

    method RecordSuccess(id: int) returns (up: bool)
      requires Valid() && id in members
      modifies this
      ensures Valid() && View() == Put(old(View()), id, Answered(PeerOf(old(View()), id)), true)
      ensures up <==> !old(alive[id])
    {
      hide Tracked;
      PutTracks(View(), id, true, failAfter);
      up := !alive[id];
      misses := misses[id := 0];
      alive := alive[id := true];
      pings := pings[id := pings[id] + [true]];
      if up { fired := fired[id := fired[id] + [true]]; }
      assert View() == Put(old(View()), id, Answered(PeerOf(old(View()), id)), true);
    }

    /** Alive exactly while the last failAfter pings were not all missed. */
    method Alive(id: int) returns (r: bool)
      requires Valid()
      ensures id != self && id in pings ==> (r <==> TrailingMisses(pings[id]) < failAfter)
      ensures id == self ==> r
      ensures id != self && id !in pings ==> !r
    {
      if id == self { return true; }
      if id !in alive { return false; }
      CounterRefines(pings[id], failAfter);
      assert PeerOf(View(), id) == After(pings[id], failAfter);
      r := alive[id];
    }

    ghost function Live(): set<int>
      requires Valid()
      reads this
    {
      set id | id in members && alive[id]
    }

    method ControllerID() returns (controller: int)
      requires Valid()
      ensures IsController(Live(), controller)
    {
      controller := -1;
      for i := 0 to |members|
        invariant Valid() && (forall b :: b in members[..i] ==> b in members)
        invariant controller == -1 || controller in Live()
        invariant controller >= -1
        invariant forall b :: b in members[..i] && alive[b] ==> b <= controller || b < 0
      {
        var b := members[i];
        assert b in members;
        if b in alive && alive[b] && b > controller { controller := b; }
        assert members[..i + 1] == members[..i] + [b];
      }
    }
  }
}
