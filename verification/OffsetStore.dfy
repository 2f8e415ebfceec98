/** Committed consumer offsets: a map kept equal to the last-write-wins replay of its log. */
module OffsetStore {
  import opened Wire
  import opened LogFiles
  import opened Storage
  import MetadataCodec
  import LogModel

  datatype Key = Key(group: Bytes, topic: Bytes, partition: int)

  // ----- the entry codec -----

  function EntryBytes(k: Key, offset: int, timestamp: int): Bytes {
    StringBytes(k.group) +
      (StringBytes(k.topic) + (Int32Bytes(k.partition) + (Int64Bytes(offset) + Int64Bytes(timestamp))))
  }

  function ParseEntry(payload: Bytes): Parsed<(Key, int)> {
    var (group, s) :- TakeString(payload);
    var (topic, s) :- TakeString(s);
    var (partition, s) :- TakeInt32(s);
    var (offset, s) :- TakeInt64(s);
    var (_, s) :- TakeInt64(s);
    Ok((Key(group, topic, partition), offset), s)
  }

  /** An entry whose numbers fit comes back exactly when both names are at most
      32767 bytes. */
  lemma EntryRoundTrip(k: Key, offset: int, timestamp: int)
    requires IsInt32(k.partition) && IsInt64(offset)
    ensures var r := ParseEntry(EntryBytes(k, offset, timestamp));
            r.Ok? && r.value == (k, offset) <==> |k.group| <= 32767 && |k.topic| <= 32767
  {
    hide StringBytes, TakeString, Int32Bytes, TakeInt32, Int64Bytes, TakeInt64;
    var s4 := Int64Bytes(timestamp);
    var s3 := Int64Bytes(offset) + s4;
    var s2 := Int32Bytes(k.partition) + s3;
    var s1 := StringBytes(k.topic) + s2;
    MetadataCodec.StringValue(k.group, s1);
    MetadataCodec.StringValue(k.topic, s2);
    Int32RoundTrip(k.partition, s3);
    Int64RoundTrip(offset, s4);
    assert s4 + [] == s4;
    Int64RoundTrip(timestamp, []);
  }

  lemma ParseCut(s: Bytes, k: nat)
    requires k <= |s|
    ensures Cut(s, ParseEntry(s), k, ParseEntry(s[..k]))
  {
    hide TakeString, TakeInt32, TakeInt64, Cut;
    StringCut(s, k);
    var a, a' := TakeString(s), TakeString(s[..k]);
    if a.Err? { CutFails(s, ParseEntry(s), k, ParseEntry(s[..k])); return; }
    CutBound(s, a, k, a');
    StringCut(a.rest, Left(s, a.rest, k));
    var b := TakeString(a.rest);
    CutThen(s, a, k, a', b, TakeString(a.rest[..Left(s, a.rest, k)]));
    var b' := if a'.Err? then Err else TakeString(a'.rest);
    if b.Err? { CutFails(s, ParseEntry(s), k, ParseEntry(s[..k])); return; }
    CutBound(s, b, k, b');
    IntCut(b.rest, Left(s, b.rest, k));
    var c := TakeInt32(b.rest);
    CutThen(s, b, k, b', c, TakeInt32(b.rest[..Left(s, b.rest, k)]));
    var c' := if b'.Err? then Err else TakeInt32(b'.rest);
    if c.Err? { CutFails(s, ParseEntry(s), k, ParseEntry(s[..k])); return; }
    CutBound(s, c, k, c');
    IntCut(c.rest, Left(s, c.rest, k));
    var d := TakeInt64(c.rest);
    CutThen(s, c, k, c', d, TakeInt64(c.rest[..Left(s, c.rest, k)]));
    var d' := if c'.Err? then Err else TakeInt64(c'.rest);
    if d.Err? { CutFails(s, ParseEntry(s), k, ParseEntry(s[..k])); return; }
    CutBound(s, d, k, d');
    IntCut(d.rest, Left(s, d.rest, k));
    var e := TakeInt64(d.rest);
    CutThen(s, d, k, d', e, TakeInt64(d.rest[..Left(s, d.rest, k)]));
    var e' := if d'.Err? then Err else TakeInt64(d'.rest);
    if e.Err? { CutFails(s, ParseEntry(s), k, ParseEntry(s[..k])); return; }
    SameValue(s, d, k, d');
    CutAs(s, e, k, e', (Key(a.value, b.value, c.value), d.value));
  }

  /** An entry that is cut anywhere does not decode. */
  lemma EntryCut(x: Key, offset: int, timestamp: int, k: nat)
    requires KeyFits(x) && IsInt64(offset) && k < |EntryBytes(x, offset, timestamp)|
    ensures ParseEntry(EntryBytes(x, offset, timestamp)[..k]).Err?
  {
    hide ParseEntry, EntryBytes;
    EntryReads(x, offset, timestamp);
    ParseCut(EntryBytes(x, offset, timestamp), k);
  }

  lemma EntryReads(k: Key, offset: int, timestamp: int)
    requires KeyFits(k) && IsInt64(offset)
    ensures ParseEntry(EntryBytes(k, offset, timestamp)) == Ok((k, offset), [])
  {
    hide StringBytes, TakeString, Int32Bytes, TakeInt32, Int64Bytes, TakeInt64;
    var s4 := Int64Bytes(timestamp);
    var s3 := Int64Bytes(offset) + s4;
    var s2 := Int32Bytes(k.partition) + s3;
    StringRoundTrip(k.group, StringBytes(k.topic) + s2);
    StringRoundTrip(k.topic, s2);
    Int32RoundTrip(k.partition, s3);
    Int64RoundTrip(offset, s4);
    assert s4 + [] == s4;
    Int64RoundTrip(timestamp, []);
  }

  // ----- replay -----

  /** Last write wins. */
  function Fold(history: seq<Bytes>): map<Key, int> {
    if history == [] then map[]
    else
      var before, e := Fold(history[..|history| - 1]), ParseEntry(history[|history| - 1]);
      if e.Ok? then before[e.value.0 := e.value.1] else before
  }

  predicate Decodes(payload: Bytes) { ParseEntry(payload).Ok? }

  /** Reads the whole log, segment by segment, into the map; the first entry that
      does not decode fails it. */
  method Replay(log: Log) returns (offsets: Option<map<Key, int>>)
    requires log.Valid()
    ensures offsets.Some? <==> forall i :: 0 <= i < |log.contents| ==> Decodes(log.contents[i])
    ensures offsets.Some? ==> offsets.value == Fold(log.contents)
  {
    hide LogModel.Holds, ParseEntry;
    var next, m := 0, map[];
    while true
      invariant 0 <= next <= |log.contents|
      invariant m == Fold(log.contents[..next])
      invariant forall i :: 0 <= i < next ==> Decodes(log.contents[i])
      decreases |log.contents| - next
    {
      var records, owner := log.Read(next, -1);
      if records == [] { break; }
      ghost var end := LogModel.SegmentEnd(log.View(), owner);
      assert records == LogModel.EntriesFrom(next, log.contents[next..end]);
      var applied := ReplayRecords(m, records, next, log.contents);
      if applied.None? { return None; }
      m, next := applied.value, next + |records|;
    }
    assert log.contents[..next] == log.contents;
    return Some(m);
  }

  /** One read's worth of the replay. */
  method ReplayRecords(before: map<Key, int>, records: seq<Entry>, start: nat, ghost contents: seq<Bytes>)
    returns (offsets: Option<map<Key, int>>)
    requires start + |records| <= |contents| && before == Fold(contents[..start])
    requires forall i :: 0 <= i < |records| ==> records[i].payload == contents[start + i]
    ensures offsets.Some? <==> forall k :: start <= k < start + |records| ==> Decodes(contents[k])
    ensures offsets.Some? ==> offsets.value == Fold(contents[..start + |records|])
  {
    hide ParseEntry;
    var m := before;
    for i := 0 to |records|
      invariant m == Fold(contents[..start + i])
      invariant forall k :: start <= k < start + i ==> Decodes(contents[k])
    {
      var e := ParseEntry(records[i].payload);
      assert contents[..start + i + 1][..start + i] == contents[..start + i];
      if e.Err? {
        assert !Decodes(contents[start + i]);
        return None;
      }
      m := m[e.value.0 := e.value.1];
    }
    return Some(m);
  }

  predicate KeyFits(k: Key) {
    |k.group| <= 32767 && |k.topic| <= 32767 && IsInt32(k.partition)
  }

  class Store {
    const log: Log
    var offsets: map<Key, int>

    ghost predicate Valid()
      reads this, log, log.segments
    {
      && log.Valid()
      && (forall i :: 0 <= i < |log.contents| ==> Decodes(log.contents[i]))
      && offsets == Fold(log.contents)
    }

    constructor (log: Log, replayed: map<Key, int>)
      requires log.Valid() && replayed == Fold(log.contents)
      requires forall i :: 0 <= i < |log.contents| ==> Decodes(log.contents[i])
      ensures Valid() && this.log == log
    {
      this.log, offsets := log, replayed;
    }

    /** Append to the log, then update the map.  Names that the entry can carry keep
        the map equal to the log's replay. */
    method Commit(k: Key, offset: int, timestamp: int)
      requires Valid() && IsInt32(k.partition) && IsInt64(offset) && log.nextOffset < TwoTo63 - 1
      requires |k.group| < TwoTo31 - 32 && |k.topic| < TwoTo31 - 32
      modifies this, log, log.segments
      ensures log.Valid() && offsets == old(offsets)[k := offset]
      ensures KeyFits(k) ==> Valid()
      ensures log.contents == old(log.contents) + [EntryBytes(k, offset, timestamp)]
      ensures forall i :: 0 <= i < |log.segments| ==> log.segments[i] in old(log.segments) || fresh(log.segments[i])
    {
      hide LogModel.Holds, ParseEntry, EntryBytes, Fold, Views;
      EntryRoundTrip(k, offset, timestamp);
      EntrySizeBound(k, offset, timestamp);
      if KeyFits(k) { FoldGrows(log.contents, EntryBytes(k, offset, timestamp)); }
      var _ := log.AppendWithOffset(EntryBytes(k, offset, timestamp), false);
      offsets := offsets[k := offset];
    }

    method Fetch(k: Key) returns (offset: int)
      requires Valid()
      ensures offset == Committed(log.contents, k)
    {
      hide LogModel.Holds, ParseEntry;
      FoldIsCommitted(log.contents, k);
      offset := if k in offsets then offsets[k] else -1;
    }
  }

  lemma FoldGrows(history: seq<Bytes>, payload: Bytes)
    requires Decodes(payload)
    ensures Fold(history + [payload]) == Fold(history)[ParseEntry(payload).value.0 := ParseEntry(payload).value.1]
  {
    hide ParseEntry;
    assert (history + [payload])[..|history|] == history;
  }

  lemma EntrySizeBound(k: Key, offset: int, timestamp: int)
    requires |k.group| < TwoTo31 - 32 && |k.topic| < TwoTo31 - 32
    ensures |EntryBytes(k, offset, timestamp)| < TwoTo32
  {
    hide U64, U32, U16;
  }

  /** The value of the last entry for k, or -1. */
  function Committed(history: seq<Bytes>, k: Key): int {
    if history == [] then -1
    else
      var e := ParseEntry(history[|history| - 1]);
      if e.Ok? && e.value.0 == k then e.value.1 else Committed(history[..|history| - 1], k)
  }

  lemma {:induction false} FoldIsCommitted(history: seq<Bytes>, k: Key)
    ensures Committed(history, k) == if k in Fold(history) then Fold(history)[k] else -1
  {
    hide ParseEntry;
    if history != [] { FoldIsCommitted(history[..|history| - 1], k); }
  }

  // ----- whole runs -----

  datatype Commitment = Commitment(key: Key, offset: int)

  datatype Op = CommitOp(key: Key, offset: int, timestamp: int) | ReopenOp(kept: nat)

  /** The log's history, the map, and the commits that are still in the log. */
  datatype Run = Run(history: seq<Bytes>, offsets: map<Key, int>, commits: seq<Commitment>)

  /** Reopening may have lost records at the end; the store replays the rest. */
  function Step(r: Run, op: Op): Run {
    match op
    case CommitOp(k, offset, timestamp) =>
      Run(r.history + [EntryBytes(k, offset, timestamp)], r.offsets[k := offset], r.commits + [Commitment(k, offset)])
    case ReopenOp(kept) =>
      if kept > |r.history| || kept > |r.commits| then r
      else Run(r.history[..kept], Fold(r.history[..kept]), r.commits[..kept])
  }

  function RunAll(ops: seq<Op>): Run {
    if ops == [] then Run([], map[], []) else Step(RunAll(ops[..|ops| - 1]), ops[|ops| - 1])
  }

  function LastCommit(commits: seq<Commitment>, k: Key): int {
    if commits == [] then -1
    else if commits[|commits| - 1].key == k then commits[|commits| - 1].offset
    else LastCommit(commits[..|commits| - 1], k)
  }

  predicate Sent(op: Op) {
    op.CommitOp? ==> KeyFits(op.key) && IsInt64(op.offset)
  }

  ghost predicate Consistent(r: Run) {
    && |r.history| == |r.commits|
    && r.offsets == Fold(r.history)
    && forall i :: 0 <= i < |r.history| ==> Records(r.history[i], r.commits[i])
  }

  ghost predicate Records(payload: Bytes, c: Commitment) {
    Decodes(payload) && ParseEntry(payload).value == (c.key, c.offset)
  }

  lemma StepConsistent(r: Run, op: Op)
    requires Consistent(r) && Sent(op)
    ensures Consistent(Step(r, op))
  {
    hide ParseEntry, EntryBytes, Fold, Records;
    match op
    case CommitOp(k, offset, timestamp) =>
      assert Records(EntryBytes(k, offset, timestamp), Commitment(k, offset)) by {
        CommitRecords(k, offset, timestamp);
      }
      CommitFolds(r.history, k, offset, timestamp);
    case ReopenOp(kept) =>
  }

  lemma CommitRecords(k: Key, offset: int, timestamp: int)
    requires KeyFits(k) && IsInt64(offset)
    ensures Records(EntryBytes(k, offset, timestamp), Commitment(k, offset))
  {
    hide ParseEntry, EntryBytes;
    EntryRoundTrip(k, offset, timestamp);
  }

  lemma CommitFolds(history: seq<Bytes>, k: Key, offset: int, timestamp: int)
    requires KeyFits(k) && IsInt64(offset)
    ensures Fold(history + [EntryBytes(k, offset, timestamp)]) == Fold(history)[k := offset]
  {
    hide ParseEntry, EntryBytes, Fold;
    EntryRoundTrip(k, offset, timestamp);
    FoldGrows(history, EntryBytes(k, offset, timestamp));
  }

  lemma {:induction false} RunConsistent(ops: seq<Op>)
    requires forall i :: 0 <= i < |ops| ==> Sent(ops[i])
    ensures Consistent(RunAll(ops))
  {
    hide Step;
    if ops != [] {
      RunConsistent(ops[..|ops| - 1]);
      StepConsistent(RunAll(ops[..|ops| - 1]), ops[|ops| - 1]);
    }
  }

  lemma {:induction false} CommittedIsLast(history: seq<Bytes>, commits: seq<Commitment>, k: Key)
    requires |history| == |commits|
    requires forall i :: 0 <= i < |history| ==> Records(history[i], commits[i])
    ensures Committed(history, k) == LastCommit(commits, k)
  {
    hide ParseEntry;
    if history != [] { CommittedIsLast(history[..|history| - 1], commits[..|commits| - 1], k); }
  }

  /** After any commits and reopenings, a fetch answers the last surviving commit
      for the key, or -1. */
  lemma FetchSurvives(ops: seq<Op>, k: Key)
    requires forall i :: 0 <= i < |ops| ==> Sent(ops[i])
    ensures var r := RunAll(ops);
            (if k in r.offsets then r.offsets[k] else -1) == LastCommit(r.commits, k)
  {
    hide ParseEntry, Fold, RunAll;
    RunConsistent(ops);
    var r := RunAll(ops);
    FoldIsCommitted(r.history, k);
    CommittedIsLast(r.history, r.commits, k);
  }
}
