/**
 The log as the broker runs it: objects that hold segments, the recovery and
 read loops over file bytes, and binary search through bases and indexes.
 Each method is proved against LogModel and the flat history.
 */
module Storage {
  import opened Wire
  import opened LogFiles
  import opened RecordBatch
  import LogModel

  // ----- reading records from a file -----

  function PayloadBytes(es: seq<Entry>): nat {
    if es == [] then 0 else PayloadBytes(es[..|es| - 1]) + |es[|es| - 1].payload|
  }

  /** records are the first of `all`, cut at the first point where their
      payloads reach maxBytes (no limit when maxBytes <= 0). */
  ghost predicate CutAt(records: seq<Entry>, all: seq<Entry>, maxBytes: int) {
    && records <= all
    && (records != all ==> 0 < maxBytes <= PayloadBytes(records))
    && (forall m :: 0 < m < |records| && maxBytes > 0 ==> PayloadBytes(records[..m]) < maxBytes)
  }

  /** The entries at or after an offset. */
  function FromOffset(es: seq<Entry>, offset: int): seq<Entry> {
    if es == [] then []
    else
      var init, last := FromOffset(es[..|es| - 1], offset), es[|es| - 1];
      if last.offset < offset then init else init + [last]
  }

  lemma {:induction false} FromOffsetGrows(seen: seq<Entry>, more: seq<Entry>, offset: int)
    ensures FromOffset(seen, offset) <= FromOffset(seen + more, offset)
  {
    if more == [] {
      assert seen + more == seen;
    } else {
      assert (seen + more)[..|seen + more| - 1] == seen + more[..|more| - 1];
      FromOffsetGrows(seen, more[..|more| - 1], offset);
    }
  }

  /** Of consecutive entries from base on, those at or after an offset. */
  function TailFrom(base: int, es: seq<Entry>, offset: int): seq<Entry> {
    if offset >= base + |es| then [] else if offset <= base then es else es[offset - base..]
  }

  lemma TailStep(base: int, es: seq<Entry>, offset: int)
    requires es != []
    ensures var n := |es| - 1;
            TailFrom(base, es, offset) ==
            if base + n < offset then TailFrom(base, es[..n], offset) else TailFrom(base, es[..n], offset) + [es[n]]
  {
    var n := |es| - 1;
    if offset <= base { assert es[..n] + [es[n]] == es; }
    else if offset <= base + n { assert es[offset - base..] == es[..n][offset - base..] + [es[n]]; }
  }

  lemma {:induction false} FromOffsetTail(base: int, es: seq<Entry>, offset: int)
    requires forall k :: 0 <= k < |es| ==> es[k].offset == base + k
    ensures FromOffset(es, offset) == TailFrom(base, es, offset)
  {
    if es != [] {
      FromOffsetTail(base, es[..|es| - 1], offset);
      TailStep(base, es, offset);
      hide TailFrom;
      assert es[|es| - 1].offset == base + |es| - 1;
    }
  }

  ghost predicate BelowLimit(records: seq<Entry>, maxBytes: int) {
    forall m :: 0 < m <= |records| && maxBytes > 0 ==> PayloadBytes(records[..m]) < maxBytes
  }

  lemma OneMoreRecord(before: seq<Entry>, e: Entry, all: seq<Entry>, maxBytes: int)
    requires BelowLimit(before, maxBytes) && before + [e] <= all
    ensures var r := before + [e];
            && PayloadBytes(r) == PayloadBytes(before) + |e.payload|
            && if 0 < maxBytes <= PayloadBytes(r) then CutAt(r, all, maxBytes) else BelowLimit(r, maxBytes)
  {
    var r := before + [e];
    assert r[..|before|] == before && r[..|r|] == r;
    assert forall m :: 0 < m < |r| ==> r[..m] == before[..m];
  }

  /** Passing over one whole entry. */
  lemma ScanAdvances(file: Bytes, pos: nat, seen: seq<Entry>, offset: int)
    requires WholeEntryAt(file, pos)
    ensures var e := EntryAt(file, pos);
            && seen + ScanEntries(file, pos) == seen + [e] + ScanEntries(file, pos + EntrySize(e))
            && FromOffset(seen + [e], offset) ==
               (if e.offset < offset then FromOffset(seen, offset) else FromOffset(seen, offset) + [e])
            && FromOffset(seen + [e], offset) <= FromOffset(seen + ScanEntries(file, pos), offset)
  {
    hide Narrow, GetBigEndian;
    var e := EntryAt(file, pos);
    ScanStep(file, pos);
    assert (seen + [e])[..|seen|] == seen;
    FromOffsetGrows(seen + [e], ScanEntries(file, pos + EntrySize(e)), offset);
  }

  method ReadRecords(file: Bytes, startPos: nat, offset: int, maxBytes: int) returns (records: seq<Entry>)
    ensures CutAt(records, FromOffset(ScanEntries(file, startPos), offset), maxBytes)
  {
    hide Narrow, GetBigEndian, FromOffset;
    records := [];
    var pos, payloadBytes := startPos, 0;
    ghost var all, seen: seq<Entry> := ScanEntries(file, startPos), [];
    assert FromOffset([], offset) == [] by { FromOffsetTail(0, [], offset); }
    while pos + EntryHeaderSize <= |file|
      invariant seen + ScanEntries(file, pos) == all
      invariant records == FromOffset(seen, offset)
      invariant payloadBytes == PayloadBytes(records)
      invariant BelowLimit(records, maxBytes)
      decreases |file| - pos
    {
      var entryOffset, length := HeaderOffset(file, pos), HeaderLength(file, pos);
      var payloadPos := pos + EntryHeaderSize;
      var nextPos := payloadPos + length;
      if nextPos <= |file| { ScanAdvances(file, pos, seen, offset); }
      if entryOffset >= offset {
        if nextPos > |file| { break; }
        var payload := file[payloadPos..nextPos];
        OneMoreRecord(records, Entry(entryOffset, payload), FromOffset(all, offset), maxBytes);
        records := records + [Entry(entryOffset, payload)];
        payloadBytes := payloadBytes + |payload|;
        if maxBytes > 0 && payloadBytes >= maxBytes { return; }
      }
      if nextPos <= |file| { seen := seen + [EntryAt(file, pos)]; }
      pos := nextPos;
    }
    assert seen == all;
  }

  // ----- recovery loops -----

  /** The offset to assign next and the length of the whole entries. */
  method RecoverLog(file: Bytes) returns (nextOffset: int, validSize: nat)
    ensures validSize == Size(ScanEntries(file, 0)) <= |file|
    ensures var es := ScanEntries(file, 0);
            nextOffset == if es == [] then 0 else Signed64(es[|es| - 1].offset + 1)
  {
    hide Narrow, GetBigEndian, Size, ScanEntries, BuildIndex;
    NothingScanned(0);
    nextOffset, validSize := 0, 0;
    ghost var all, seen: seq<Entry> := ScanEntries(file, 0), [];
    while validSize + EntryHeaderSize <= |file|
      invariant seen + ScanEntries(file, validSize) == all
      invariant validSize == Size(seen) <= |file|
      invariant nextOffset == if seen == [] then 0 else Signed64(seen[|seen| - 1].offset + 1)
      decreases |file| - validSize
    {
      var entryOffset, length := HeaderOffset(file, validSize), HeaderLength(file, validSize);
      if validSize + EntryHeaderSize + length > |file| { break; }
      ghost var e := EntryAt(file, validSize);
      ScanStep(file, validSize);
      OneEntrySize(seen, e);
      seen := seen + [e];
      nextOffset := Signed64(entryOffset + 1);
      validSize := validSize + EntryHeaderSize + length;
    }
    ScanStops(file, validSize);
    assert seen == all;
  }

  lemma NothingScanned(base: int)
    ensures Size([]) == 0 && BuildIndex(base, []) == Indexed([], 0)
  {}

  lemma OneEntrySize(es: seq<Entry>, e: Entry)
    ensures Size(es + [e]) == Size(es) + EntrySize(e)
  {
    assert (es + [e])[..|es|] == es;
  }

  method LoadIndex(file: Bytes, logSize: nat) returns (r: Option<seq<IndexEntry>>)
    ensures r == LogModel.LoadIndex(file, logSize)
  {
    hide Narrow, GetBigEndian;
    if |file| == 0 {
      return if logSize > 0 then None else Some([]);
    }
    if |file| % IndexEntrySize != 0 {
      return None;
    }
    var index: seq<IndexEntry> := [];
    while IndexEntrySize * |index| < |file|
      invariant IndexEntrySize * |index| <= |file|
      invariant index == DecodeIndex(file)[..|index|]
      invariant forall j :: 0 <= j < |index| ==> index[j].position < logSize
      decreases |file| - IndexEntrySize * |index|
    {
      var entry := IndexEntryAt(file, IndexEntrySize * |index|);
      assert entry == DecodeIndex(file)[|index|];
      if entry.position >= logSize {
        return None;
      }
      index := index + [entry];
    }
    assert index == DecodeIndex(file);
    return Some(index);
  }

  /** Rebuilding from the log gives the index that appends build, and its file. */
  method RebuildIndex(logFile: Bytes, baseOffset: int) returns (index: seq<IndexEntry>, indexFile: Bytes)
    ensures index == BuildIndex(baseOffset, ScanEntries(logFile, 0)).index
    ensures indexFile == EncodeIndex(index)
  {
    hide Narrow, GetBigEndian, Size, ScanEntries, BuildIndex, EncodeIndexEntry;
    NothingScanned(baseOffset);
    index, indexFile := [], [];
    var pos, lastIndexPos := 0, 0;
    ghost var all, seen: seq<Entry> := ScanEntries(logFile, 0), [];
    while pos + EntryHeaderSize <= |logFile|
      invariant seen + ScanEntries(logFile, pos) == all
      invariant pos == Size(seen)
      invariant BuildIndex(baseOffset, seen) == Indexed(index, lastIndexPos)
      invariant indexFile == EncodeIndex(index)
      decreases |logFile| - pos
    {
      var entryOffset, length := HeaderOffset(logFile, pos), HeaderLength(logFile, pos);
      if pos + EntryHeaderSize + length > |logFile| { break; }
      ghost var e := EntryAt(logFile, pos);
      ScanStep(logFile, pos);
      OneEntrySize(seen, e);
      BuildIndexStep(baseOffset, seen, e);
      seen := seen + [e];
      if pos - lastIndexPos >= IndexIntervalBytes {
        var entry := IndexEntry(Signed32(entryOffset - baseOffset), Signed32(pos));
        ghost var before := index;
        indexFile := indexFile + EncodeIndexEntry(entry);
        index := index + [entry];
        assert index[..|before|] == before;
        lastIndexPos := pos;
      }
      pos := pos + EntryHeaderSize + length;
    }
    ScanStops(logFile, pos);
    assert seen == all;
  }

  /** sort.Search: the first key above x. */
  method FirstAbove(keys: seq<int>, x: int) returns (i: nat)
    requires forall a, b :: 0 <= a < b < |keys| ==> keys[a] <= keys[b]
    ensures i <= |keys|
    ensures forall a :: 0 <= a < i ==> keys[a] <= x
    ensures forall a :: i <= a < |keys| ==> keys[a] > x
  {
    var lo, hi := 0, |keys|;
    while lo < hi
      invariant 0 <= lo <= hi <= |keys|
      invariant forall a :: 0 <= a < lo ==> keys[a] <= x
      invariant forall a :: hi <= a < |keys| ==> keys[a] > x
    {
      var mid := (lo + hi) / 2;
      if keys[mid] > x { hi := mid; } else { lo := mid + 1; }
    }
    i := lo;
  }

  // ----- the objects -----

  /** pos is the start of entry k, which is not past the offset if that exists. */
  ghost predicate BoundaryFor(es: seq<Entry>, pos: nat, base: int, offset: int, k: int) {
    0 <= k <= |es| && pos == Size(es[..k]) && (offset < base + |es| ==> base + k <= offset)
  }

  class Segment {
    const baseOffset: int
    var logFile: Bytes
    var indexFile: Bytes
    var logSize: int
    var lastIndexPos: int
    var index: seq<IndexEntry>

    ghost function View(): LogModel.SegmentState
      reads this
    {
      LogModel.SegmentState(baseOffset, logFile, indexFile, logSize, lastIndexPos, index)
    }

    constructor Create(base: int)
      ensures View() == LogModel.EmptySegment(base)
    {
      baseOffset, logFile, indexFile, logSize, lastIndexPos, index := base, [], [], 0, 0, [];
    }

    constructor Open(d: LogModel.DiskSegment)
      ensures View() == LogModel.OpenSegment(d)
    {
      baseOffset := d.base;
      var _, validSize := RecoverLog(d.log);
      logFile, logSize := d.log[..validSize], validSize;
      var loaded := LoadIndex(d.indexFile, validSize);
      if loaded.Some? {
        index, indexFile := loaded.value, d.indexFile;
        lastIndexPos := LastPosition(loaded.value);
      } else {
        var rebuilt, rebuiltFile := RebuildIndex(d.log[..validSize], d.base);
        index, indexFile := rebuilt, rebuiltFile;
        lastIndexPos := LastPosition(rebuilt);
      }
    }

    method MaybeWriteIndex(offset: int, entryStartPos: int)
      requires entryStartPos == logSize
      modifies this
      ensures View() == LogModel.MaybeWriteIndex(old(View()), offset)
    {
      if logSize - lastIndexPos < IndexIntervalBytes { return; }
      var entry := IndexEntry(Signed32(offset - baseOffset), Signed32(entryStartPos));
      indexFile := indexFile + EncodeIndexEntry(entry);
      index := index + [entry];
      lastIndexPos := logSize;
    }

    /** Writes one entry, indexing it first when the interval is due. */
    method Write(offset: int, payload: Bytes)
      modifies this
      ensures View() == LogModel.AppendToSegment(old(View()), offset, payload)
    {
      hide EncodeEntry, EncodeIndexEntry, Narrow;
      MaybeWriteIndex(offset, logSize);
      logFile := logFile + EncodeEntry(Entry(offset, payload));
      logSize := logSize + EntryHeaderSize + |payload|;
    }

    /** Where a scan for offset may start: a boundary at or before it, and any
        boundary when the offset is past the segment, even if narrowing the
        relative offset to int32 wraps. */
    method StartPosition(offset: int, ghost es: seq<Entry>, ghost exact: bool) returns (pos: nat)
      requires LogModel.SegmentHolds(View(), es, exact)
      requires baseOffset <= offset
      ensures exists k :: BoundaryFor(es, pos, baseOffset, offset, k)
      ensures exact && offset < baseOffset + |es| ==> Size(es[..offset - baseOffset]) - pos < IndexIntervalBytes
    {
      hide Size, EncodeEntries, BuildIndex, EncodeIndex, Before;
      ValidIndexBound(baseOffset, index, es);
      var rel := Signed32(offset - baseOffset);
      var x := index;
      var keys := seq(|x|, i requires 0 <= i < |x| => x[i].relOffset);
      var j := FirstAbove(keys, rel);
      if offset < baseOffset + |es| {
        BoundaryBound(baseOffset, es, offset - baseOffset);
        assert forall a :: 0 <= a < |x| ==> x[a].relOffset == keys[a];
        BeforeIs(x, rel, j);
        if exact { IndexIsDense(baseOffset, es, rel); }
      }
      if j == 0 {
        NothingScanned(0);
        assert es[..0] == [];
        pos := 0;
        assert BoundaryFor(es, pos, baseOffset, offset, 0);
      } else {
        assert NamesBoundary(x[j - 1], es) && keys[j - 1] <= rel;
        pos := index[j - 1].position;
        assert BoundaryFor(es, pos, baseOffset, offset, x[j - 1].relOffset);
      }
    }
  }

  ghost function Views(ss: seq<Segment>): (vs: seq<LogModel.SegmentState>)
    reads ss
    ensures |vs| == |ss|
    ensures forall i :: 0 <= i < |ss| ==> vs[i] == ss[i].View()
  {
    if ss == [] then [] else Views(ss[..|ss| - 1]) + [ss[|ss| - 1].View()]
  }

  lemma ViewsSame(ss: seq<Segment>, vs: seq<LogModel.SegmentState>)
    requires |vs| == |ss| && forall i :: 0 <= i < |ss| ==> vs[i] == ss[i].View()
    ensures Views(ss) == vs
  {}

  method OpenSegments(dir: seq<LogModel.DiskSegment>) returns (found: seq<Segment>)
    ensures |found| == |dir| && fresh(found)
    ensures forall a, b :: 0 <= a < b < |found| ==> found[a] != found[b]
    ensures forall a :: 0 <= a < |found| ==> found[a].View() == LogModel.OpenSegment(dir[a])
  {
    hide LogModel.OpenSegment;
    found := [];
    for i := 0 to |dir|
      invariant |found| == i && fresh(found)
      invariant forall a, b :: 0 <= a < b < i ==> found[a] != found[b]
      invariant forall a :: 0 <= a < i ==> found[a].View() == LogModel.OpenSegment(dir[a])
    {
      var s := new Segment.Open(dir[i]);
      found := found + [s];
    }
  }

  method RecoverNextOffset(s: Segment) returns (next: int)
    ensures next == LogModel.RecoverNext(s.View())
  {
    hide ScanEntries;
    if s.logSize == 0 { return s.baseOffset; }
    var n, _ := RecoverLog(s.logFile);
    return n;
  }

  /** A log that crashed, and where its files were cut. */
  datatype Crash = Crash(log: LogModel.LogState, history: seq<Bytes>, exact: bool, cut: nat, indexCuts: seq<nat>)
  {
    ghost predicate Valid() {
      LogModel.Holds(log, history, exact) && LogModel.Cuts(log, cut, indexCuts)
    }

    ghost predicate Left(dir: seq<LogModel.DiskSegment>) {
      Valid() && dir == LogModel.CrashImage(log, cut, indexCuts)
    }

    lemma LeavesFiles(dir: seq<LogModel.DiskSegment>)
      requires Left(dir)
      ensures dir != []
    {}

    /** The records that survive it. */
    ghost function Survivors(): seq<Bytes>
      requires Valid()
    {
      LogModel.OpenHolds(log, history, cut, indexCuts, exact);
      history[..LogModel.Surviving(log, history, cut)]
    }

    ghost predicate StaysExact()
      requires Valid()
    {
      exact && LogModel.NoShortIndex(log, history, cut, indexCuts)
    }

    lemma Reopens()
      requires Valid()
      ensures LogModel.Holds(LogModel.Open(LogModel.CrashImage(log, cut, indexCuts)), Survivors(), StaysExact())
    {
      LogModel.OpenHolds(log, history, cut, indexCuts, exact);
    }
  }

  class Log {
    var segments: seq<Segment>
    var nextOffset: int
    ghost var contents: seq<Bytes>  // the flat history: payload k has offset k
    ghost var exact: bool           // every index is the one incremental appends build

    ghost function View(): LogModel.LogState
      reads this`segments, this`nextOffset, segments
    {
      LogModel.LogState(Views(segments), nextOffset)
    }

    ghost predicate Valid()
      reads this, segments
    {
      && Distinct()
      && LogModel.Holds(View(), contents, exact)
    }

    /** Opens a directory.  When it is what a crash left of a log, exactly the
        records that survived whole are back and the log is valid again. */
    constructor Open(dir: seq<LogModel.DiskSegment>, ghost crash: Option<Crash>)
      ensures fresh(segments)
      ensures View() == LogModel.Open(dir)
      ensures dir == [] ==> Valid() && contents == []
      ensures crash.Some? && crash.value.Left(dir) ==>
                Valid() && contents == crash.value.Survivors() && exact == crash.value.StaysExact()
    {
      hide LogModel.Holds, LogModel.Cuts, LogModel.CrashImage, LogModel.Surviving, LogModel.NoShortIndex,
           LogModel.OpenSegment, LogModel.RecoverNext, LogModel.Open, Views;
      var found: seq<Segment>, next := [], 0;
      if dir == [] {
        var s := new Segment.Create(0);
        found := [s];
      } else {
        found := OpenSegments(dir);
        next := RecoverNextOffset(found[|found| - 1]);
      }
      segments, nextOffset := found, next;
      ghost var left := crash.Some? && crash.value.Left(dir);
      contents := if left then crash.value.Survivors() else [];
      exact := if left then crash.value.StaysExact() else true;
      new;
      OpensAs(dir, Views(segments), nextOffset);
      if left {
        crash.value.LeavesFiles(dir);
        crash.value.Reopens();
      } else {
        LogModel.EmptyLogHolds();
      }
    }

    ghost predicate Distinct()
      reads this`segments
    {
      forall i, j :: 0 <= i < j < |segments| ==> segments[i] != segments[j]
    }

    /** The segment to write to: a new one when the entry would overfill a
        non-empty active segment. */
    method Roll(payload: Bytes) returns (active: Segment)
      requires segments != [] && Distinct()
      modifies this`segments
      ensures segments != [] && Distinct() && active == segments[|segments| - 1]
      ensures forall k :: 0 <= k < |segments| ==> segments[k] in old(segments) || fresh(segments[k])
      ensures View() == LogModel.Roll(old(View()), payload)
    {
      hide Views;
      ghost var before := View();
      active := segments[|segments| - 1];
      if active.logSize > 0 && active.logSize + EntryHeaderSize + |payload| > MaxSegmentBytes {
        active := new Segment.Create(nextOffset);
        segments := segments + [active];
      }
      ViewsSame(segments, LogModel.Roll(before, payload).segments);
    }

    /** Appends one record; with `stamp` its offset is written into it first. */
    method AppendWithOffset(payload: Bytes, stamp: bool) returns (offset: int)
      requires Valid()
      requires nextOffset < TwoTo63 - 1 && |payload| < TwoTo32 && (stamp ==> |payload| >= 8)
      modifies this, segments
      ensures Valid() && forall k :: 0 <= k < |segments| ==> segments[k] in old(segments) || fresh(segments[k])
      ensures offset == |old(contents)| == old(nextOffset) && nextOffset == offset + 1
      ensures contents == old(contents) + [if stamp then Stamp(payload, offset) else payload]
      ensures exact == old(exact)
    {
      hide LogModel.Holds, LogModel.Append, Stamp, Views, Distinct;
      ghost var before := View();
      LogModel.NonEmpty(before, contents, exact);
      offset := nextOffset;
      var written := if stamp then Stamp(payload, offset) else payload;
      Write(written);
      LogModel.AppendHolds(before, contents, written, exact);
      contents := contents + [written];
    }

    /** One entry into the active segment, rolling first when it must. */
    method Write(written: Bytes)
      requires segments != [] && Distinct()
      modifies this`segments, this`nextOffset, segments
      ensures segments != [] && Distinct()
      ensures forall k :: 0 <= k < |segments| ==> segments[k] in old(segments) || fresh(segments[k])
      ensures View() == LogModel.Append(old(View()), written) && nextOffset == old(nextOffset) + 1
    {
      hide LogModel.AppendToSegment, LogModel.Roll, LogModel.Append, Views, Segment.View;
      ghost var before := View();
      var active := Roll(written);
      ghost var rolled, last := View(), |segments| - 1;
      active.Write(nextOffset, written);
      assert segments[last].View() == LogModel.AppendToSegment(rolled.segments[last], before.next, written);
      nextOffset := nextOffset + 1;
      assert forall k :: 0 <= k < last ==> segments[k] != active;
      assert forall k :: 0 <= k < last ==> segments[k].View() == rolled.segments[k];
      AppendIs(before, rolled, written, Views(segments));
    }

    method FindSegment(offset: int) returns (i: int)
      requires Valid()
      ensures offset < 0 ==> i == -1
      ensures offset >= 0 ==> 0 <= i < |segments| && segments[i].baseOffset <= offset
      ensures offset >= 0 && i + 1 < |segments| ==> offset < segments[i + 1].baseOffset
    {
      hide LogModel.Holds, Views;
      ghost var l := View();
      if offset < 0 { return -1; }
      var ss := segments;
      var bases := seq(|ss|, k requires 0 <= k < |ss| => ss[k].baseOffset);
      BasesSorted(l, contents, exact, bases);
      i := FirstAbove(bases, offset);
      i := i - 1;
    }

    /** Reads from a single segment.  The records are those of the flat history
        from the offset on, up to the end of the owning segment, cut where the
        payloads reach maxBytes; there is at least one if the offset exists. */
    method Read(offset: int, maxBytes: int) returns (records: seq<Entry>, ghost owner: int)
      requires Valid()
      ensures offset < 0 || offset >= |contents| ==> records == []
      ensures 0 <= offset < |contents| ==>
                && 0 <= owner < |segments|
                && segments[owner].baseOffset <= offset < LogModel.SegmentEnd(View(), owner) <= |contents|
                && CutAt(records,
                         LogModel.EntriesFrom(offset, contents[offset..LogModel.SegmentEnd(View(), owner)]), maxBytes)
                && records != []
    {
      hide LogModel.Holds, LogModel.EntriesOf, LogModel.EntriesFrom, FromOffset, ScanEntries, CutAt;
      owner := -1;
      var i := FindSegment(offset);
      if i < 0 { return [], -1; }
      ghost var l := View();
      LogModel.SegmentOf(l, contents, exact, i);
      ghost var es := LogModel.EntriesOf(l, contents, i);
      var startPos := segments[i].StartPosition(offset, es, exact);
      ghost var k :| BoundaryFor(es, startPos, segments[i].baseOffset, offset, k);
      records := ReadRecords(segments[i].logFile, startPos, offset, maxBytes);
      owner := i;
      ScanIsFlat(l, contents, exact, i, k, offset);
      CutNonEmpty(records, FromOffset(ScanEntries(segments[i].logFile, startPos), offset), maxBytes);
    }
  }

  lemma OpensAs(dir: seq<LogModel.DiskSegment>, views: seq<LogModel.SegmentState>, next: int)
    requires dir == [] ==> views == [LogModel.EmptySegment(0)] && next == 0
    requires dir != [] ==> |views| == |dir| && next == LogModel.RecoverNext(views[|dir| - 1])
    requires dir != [] ==> forall i :: 0 <= i < |dir| ==> views[i] == LogModel.OpenSegment(dir[i])
    ensures LogModel.LogState(views, next) == LogModel.Open(dir)
    ensures dir == [] ==> LogModel.Open(dir) == LogModel.EmptyLog
  {
    hide LogModel.OpenSegment, LogModel.RecoverNext;
  }

  lemma BasesSorted(l: LogModel.LogState, history: seq<Bytes>, exact: bool, bases: seq<int>)
    requires LogModel.Holds(l, history, exact) && |bases| == |l.segments|
    requires forall k :: 0 <= k < |bases| ==> bases[k] == l.segments[k].base
    ensures |bases| > 0 && bases[0] == 0
    ensures forall a, b :: 0 <= a < b < |bases| ==> bases[a] <= bases[b]
  {
    hide LogModel.HoldsAt;
    LogModel.NonEmpty(l, history, exact);
    forall a, b | 0 <= a < b < |bases|
      ensures bases[a] <= bases[b]
    {
      LogModel.BasesAscend(l, a, b);
    }
  }

  lemma AppendIs(l: LogModel.LogState, rolled: LogModel.LogState, payload: Bytes, views: seq<LogModel.SegmentState>)
    requires l.segments != [] && rolled == LogModel.Roll(l, payload) && |views| == |rolled.segments|
    requires forall k :: 0 <= k < |views| - 1 ==> views[k] == rolled.segments[k]
    requires var last := |views| - 1;
             last >= 0 && views[last] == LogModel.AppendToSegment(rolled.segments[last], l.next, payload)
    ensures LogModel.LogState(views, l.next + 1) == LogModel.Append(l, payload)
  {
    hide LogModel.AppendToSegment, LogModel.Roll;
  }

  lemma CutNonEmpty(records: seq<Entry>, all: seq<Entry>, maxBytes: int)
    requires CutAt(records, all, maxBytes)
    ensures all == [] <==> records == []
  {}

  /** Scanning the owning segment from any boundary that is not past the
      offset finds the flat history from the offset to the segment's end. */
  lemma ScanIsFlat(l: LogModel.LogState, history: seq<Bytes>, exact: bool, i: nat, k: nat, offset: int)
    requires LogModel.Holds(l, history, exact) && i < |l.segments|
    requires 0 <= l.segments[i].base <= LogModel.SegmentEnd(l, i) <= |history|
    requires l.segments[i].base <= offset
    requires i + 1 < |l.segments| ==> offset < l.segments[i + 1].base
    requires k <= |LogModel.EntriesOf(l, history, i)|
    requires offset < LogModel.SegmentEnd(l, i) ==> k <= offset - l.segments[i].base
    ensures offset < |history| <==> offset < LogModel.SegmentEnd(l, i)
    ensures var start := Size(LogModel.EntriesOf(l, history, i)[..k]);
            FromOffset(ScanEntries(l.segments[i].log, start), offset) ==
            if offset >= |history| then []
            else LogModel.EntriesFrom(offset, history[offset..LogModel.SegmentEnd(l, i)])
  {
    hide LogModel.Holds, FromOffset, ScanEntries, Size, LogModel.EntriesFrom;
    LogModel.NonEmpty(l, history, exact);
    var base, end := l.segments[i].base, LogModel.SegmentEnd(l, i);
    var es := LogModel.EntriesFrom(base, history[base..end]);
    SegmentIs(l, history, exact, i);
    ScanFrom(es, k);
    FlatFrom(base, history[base..end], k, offset);
    if offset < end { assert history[base..end][offset - base..] == history[offset..end]; }
  }

  lemma SegmentIs(l: LogModel.LogState, history: seq<Bytes>, exact: bool, i: nat)
    requires LogModel.Holds(l, history, exact) && i < |l.segments|
    requires 0 <= l.segments[i].base <= LogModel.SegmentEnd(l, i) <= |history|
    ensures var es := LogModel.EntriesOf(l, history, i); AllFit(es) && l.segments[i].log == EncodeEntries(es)
  {
    hide LogModel.Holds, EncodeEntries, Size, BuildIndex, ValidIndex, LogModel.EntriesOf;
    LogModel.SegmentOf(l, history, exact, i);
  }

  /** An intact file scanned from a boundary yields the entries from there on. */
  lemma ScanFrom(es: seq<Entry>, k: nat)
    requires AllFit(es) && k <= |es|
    ensures ScanEntries(EncodeEntries(es), Size(es[..k])) == es[k..]
  {
    hide ScanEntries, EncodeEntries, Size;
    WholeIntact(es);
    ScanCut(es, k, Size(es));
    assert EncodeEntries(es)[..Size(es)] == EncodeEntries(es);
    assert es[k..|es|] == es[k..];
  }

  lemma FlatFrom(base: int, payloads: seq<Bytes>, k: nat, offset: int)
    requires k <= |payloads| && base <= offset && (offset < base + |payloads| ==> k <= offset - base)
    ensures FromOffset(LogModel.EntriesFrom(base, payloads)[k..], offset) ==
            if offset < base + |payloads| then LogModel.EntriesFrom(offset, payloads[offset - base..]) else []
  {
    hide FromOffset;
    var es := LogModel.EntriesFrom(base, payloads);
    FromOffsetTail(base + k, es[k..], offset);
    if offset < base + |payloads| {
      assert es[k..][offset - base - k..] == LogModel.EntriesFrom(offset, payloads[offset - base..]);
    }
  }

  lemma WholeIntact(es: seq<Entry>)
    ensures WholeCount(es, Size(es)) == |es|
  {}
}
