/**
 The segmented log as a value: what an append, a crash and a reopening do to
 it, and the invariant that ties it to the flat history of appended payloads.
 */
module LogModel {
  import opened Wire
  import opened LogFiles

  /** One segment: its two files and what the broker keeps in memory. */
  datatype SegmentState = SegmentState(
    base: int, log: Bytes, indexFile: Bytes, logSize: int, lastIndexPos: int, index: seq<IndexEntry>)

  datatype LogState = LogState(segments: seq<SegmentState>, next: int)

  function EmptySegment(base: int): SegmentState {
    SegmentState(base, [], [], 0, 0, [])
  }

  const EmptyLog := LogState([EmptySegment(0)], 0)

  // ----- append -----

  function MaybeWriteIndex(s: SegmentState, offset: int): SegmentState {
    if s.logSize - s.lastIndexPos < IndexIntervalBytes then s
    else
      var x := IndexEntry(Signed32(offset - s.base), Signed32(s.logSize));
      s.(indexFile := s.indexFile + EncodeIndexEntry(x), index := s.index + [x], lastIndexPos := s.logSize)
  }

  function AppendToSegment(s: SegmentState, offset: int, payload: Bytes): (r: SegmentState)
    ensures r.base == s.base
  {
    var e := Entry(offset, payload);
    var s' := MaybeWriteIndex(s, offset);
    s'.(log := s'.log + EncodeEntry(e), logSize := s'.logSize + EntrySize(e))
  }

  /** A non-empty active segment that the next entry would overfill gets a successor. */
  function Roll(l: LogState, payload: Bytes): (r: LogState)
    requires l.segments != []
    ensures r.segments != [] && r.next == l.next
  {
    var active := l.segments[|l.segments| - 1];
    if active.logSize > 0 && active.logSize + EntryHeaderSize + |payload| > MaxSegmentBytes then
      l.(segments := l.segments + [EmptySegment(l.next)])
    else l
  }

  function Append(l: LogState, payload: Bytes): (r: LogState)
    requires l.segments != []
    ensures r.segments != []
  {
    var rolled := Roll(l, payload);
    var last := |rolled.segments| - 1;
    LogState(rolled.segments[last := AppendToSegment(rolled.segments[last], l.next, payload)], l.next + 1)
  }

  // ----- reopening -----

  /** The files of one segment as they are found in the directory. */
  datatype DiskSegment = DiskSegment(base: int, log: Bytes, indexFile: Bytes)

  function LoadIndex(file: Bytes, logSize: nat): Option<seq<IndexEntry>> {
    if |file| == 0 then if logSize > 0 then None else Some([])
    else if |file| % IndexEntrySize != 0 then None
    else
      var index := DecodeIndex(file);
      if forall j :: 0 <= j < |index| ==> index[j].position < logSize then Some(index) else None
  }

  function OpenSegment(d: DiskSegment): SegmentState {
    var size := Size(ScanEntries(d.log, 0));
    ScanFits(d.log, 0);
    var log := d.log[..size];
    match LoadIndex(d.indexFile, size)
    case Some(index) => SegmentState(d.base, log, d.indexFile, size, LastPosition(index), index)
    case None =>
      var index := BuildIndex(d.base, ScanEntries(log, 0)).index;
      SegmentState(d.base, log, EncodeIndex(index), size, LastPosition(index), index)
  }

  function RecoverNext(s: SegmentState): int {
    var es := ScanEntries(s.log, 0);
    if s.logSize == 0 then s.base
    else if es == [] then 0
    else Signed64(es[|es| - 1].offset + 1)
  }

  /** dir lists the segment files in ascending order of base offset. */
  function Open(dir: seq<DiskSegment>): (l: LogState)
    ensures l.segments != []
  {
    if dir == [] then EmptyLog
    else
      var segments := seq(|dir|, i requires 0 <= i < |dir| => OpenSegment(dir[i]));
      LogState(segments, RecoverNext(segments[|segments| - 1]))
  }

  // ----- the invariant -----

  /** Consecutive entries from base on. */
  function EntriesFrom(base: int, payloads: seq<Bytes>): (es: seq<Entry>)
    ensures |es| == |payloads|
  {
    seq(|payloads|, k requires 0 <= k < |payloads| => Entry(base + k, payloads[k]))
  }

  /** `exact` says that the index is the very one that incremental appends build. */
  ghost predicate SegmentHolds(s: SegmentState, es: seq<Entry>, exact: bool) {
    && SegmentEntries(s.base, es)
    && s.log == EncodeEntries(es)
    && s.logSize == |s.log|
    && ValidIndex(s.index, es)
    && s.indexFile == EncodeIndex(s.index)
    && s.lastIndexPos == LastPosition(s.index)
    && (exact ==> ExactIndex(s, es))
  }

  ghost predicate ExactIndex(s: SegmentState, es: seq<Entry>) {
    s.index == BuildIndex(s.base, es).index
  }

  function SegmentEnd(l: LogState, i: nat): int
    requires i < |l.segments|
  {
    if i + 1 < |l.segments| then l.segments[i + 1].base else l.next
  }

  /** Segment i starts where segment i - 1 ends; only the last may be empty. */
  ghost predicate Contiguous(l: LogState) {
    && l.segments != []
    && l.segments[0].base == 0
    && l.next < TwoTo63
    && (forall i {:trigger SegmentEnd(l, i)} :: 0 <= i < |l.segments| ==> l.segments[i].base <= SegmentEnd(l, i))
    && (forall i {:trigger SegmentEnd(l, i)} :: 0 <= i < |l.segments| - 1 ==> l.segments[i].base < SegmentEnd(l, i))
  }

  lemma {:induction false} BasesAscend(l: LogState, i: nat, j: nat)
    requires Contiguous(l) && i <= j < |l.segments|
    ensures l.segments[i].base <= l.segments[j].base
    ensures i < j ==> SegmentEnd(l, i) <= l.segments[j].base
  {
    if i < j {
      BasesAscend(l, i, j - 1);
      assert l.segments[j - 1].base < SegmentEnd(l, j - 1) == l.segments[j].base;
    }
  }

  lemma BasesInRange(l: LogState, i: nat)
    requires Contiguous(l) && i < |l.segments|
    ensures 0 <= l.segments[i].base <= SegmentEnd(l, i) <= l.next
  {
    var last := |l.segments| - 1;
    BasesAscend(l, 0, i);
    BasesAscend(l, i, last);
    assert l.segments[i].base <= SegmentEnd(l, i) && l.segments[last].base <= SegmentEnd(l, last);
  }

  /** The payloads of segment i. */
  function SegmentPayloads(l: LogState, history: seq<Bytes>, i: nat): seq<Bytes>
    requires i < |l.segments|
    requires 0 <= l.segments[i].base <= SegmentEnd(l, i) <= |history|
  {
    history[l.segments[i].base..SegmentEnd(l, i)]
  }

  function EntriesOf(l: LogState, history: seq<Bytes>, i: nat): seq<Entry>
    requires i < |l.segments|
    requires 0 <= l.segments[i].base <= SegmentEnd(l, i) <= |history|
  {
    EntriesFrom(l.segments[i].base, SegmentPayloads(l, history, i))
  }

  /** The log stands for the flat history: record k of it is history[k]. */
  ghost predicate Holds(l: LogState, history: seq<Bytes>, exact: bool) {
    && Contiguous(l)
    && l.next == |history|
    && forall i :: 0 <= i < |l.segments| ==> HoldsAt(l, history, i, exact)
  }

  ghost predicate HoldsAt(l: LogState, history: seq<Bytes>, i: nat, exact: bool)
    requires i < |l.segments|
  {
    && 0 <= l.segments[i].base <= SegmentEnd(l, i) <= |history|
    && SegmentHolds(l.segments[i], EntriesOf(l, history, i), exact)
  }

  lemma NonEmpty(l: LogState, history: seq<Bytes>, exact: bool)
    requires Holds(l, history, exact)
    ensures l.segments != [] && l.next == |history|
  {}

  lemma SegmentOf(l: LogState, history: seq<Bytes>, exact: bool, i: nat)
    requires Holds(l, history, exact) && i < |l.segments|
    ensures HoldsAt(l, history, i, exact)
  {}

  lemma EmptyLogHolds()
    ensures Holds(EmptyLog, [], true)
  {
    assert HoldsAt(EmptyLog, [], 0, true);
  }

  // ----- an append extends the history -----

  predicate Appendable(l: LogState, payload: Bytes) {
    l.next < TwoTo63 - 1 && |payload| < TwoTo32
  }

  /** Before entry e is written, the index may gain an entry that names it. */
  lemma IndexAppend(s: SegmentState, es: seq<Entry>, e: Entry, exact: bool)
    requires SegmentHolds(s, es, exact) && e.offset == s.base + |es| && SegmentEntries(s.base, es + [e])
    ensures var s', es' := MaybeWriteIndex(s, e.offset), es + [e];
            && s'.log == s.log && s'.logSize == s.logSize && s'.base == s.base
            && ValidIndex(s'.index, es')
            && s'.indexFile == EncodeIndex(s'.index)
            && s'.lastIndexPos == LastPosition(s'.index)
            && (ExactIndex(s, es) ==> ExactIndex(s', es'))
  {
    hide EncodeEntries, EncodeIndexEntry, EncodeIndex, Signed32, SegmentEntries, ValidIndex, Size, BuildIndex;
    var es' := es + [e];
    assert es'[..|es|] == es;
    assert s.logSize == Size(es);
    BoundaryBound(s.base, es', |es|);
    ValidIndexGrows(s.index, es, [e]);
    NameNext(s.index, es', |es|);
    EncodeIndexSnoc(s.index, IndexEntry(|es|, s.logSize));
    BuildIndexValid(s.base, es);
    BuildIndexStep(s.base, es, e);
  }

  lemma EncodeIndexSnoc(index: seq<IndexEntry>, x: IndexEntry)
    ensures EncodeIndex(index + [x]) == EncodeIndex(index) + EncodeIndexEntry(x)
  {
    hide EncodeIndexEntry;
    assert (index + [x])[..|index|] == index;
  }

  lemma SegmentAppend(s: SegmentState, es: seq<Entry>, payload: Bytes, exact: bool)
    requires SegmentHolds(s, es, exact)
    requires EntryFits(Entry(s.base + |es|, payload))
    requires es == [] || s.logSize + EntryHeaderSize + |payload| <= MaxSegmentBytes
    ensures SegmentHolds(AppendToSegment(s, s.base + |es|, payload), es + [Entry(s.base + |es|, payload)], exact)
  {
    hide EncodeEntry, EncodeEntries, EntryFits, EntrySize, SegmentEntries, MaybeWriteIndex, EncodeIndex, ValidIndex,
         BuildIndex, Size, LastPosition;
    var e := Entry(s.base + |es|, payload);
    EntriesGrow(s.base, es, e);
    IndexAppend(s, es, e, exact);
  }

  lemma EntriesGrow(base: int, es: seq<Entry>, e: Entry)
    requires SegmentEntries(base, es) && EntryFits(e) && e.offset == base + |es|
    requires es == [] || |EncodeEntries(es)| + EntryHeaderSize + |e.payload| <= MaxSegmentBytes
    ensures SegmentEntries(base, es + [e])
    ensures EncodeEntries(es + [e]) == EncodeEntries(es) + EncodeEntry(e) && |EncodeEntry(e)| == EntrySize(e)
  {
    hide EncodeEntry, EntryFits;
    assert (es + [e])[..|es|] == es;
  }

  lemma EmptySegmentHolds(base: int)
    ensures SegmentHolds(EmptySegment(base), [], true)
  {}

  lemma RollHolds(l: LogState, history: seq<Bytes>, payload: Bytes, exact: bool)
    requires Holds(l, history, exact)
    ensures Holds(Roll(l, payload), history, exact)
    ensures var r := Roll(l, payload); var last := |r.segments| - 1;
            r.segments[last].base == r.next || r.segments[last].logSize + EntryHeaderSize + |payload| <= MaxSegmentBytes
  {
    hide SegmentHolds, EntriesOf;
    var r, n := Roll(l, payload), |l.segments|;
    LastIsEmpty(l, history, exact);
    if r != l {
      RollContiguous(l, payload);
      forall i | 0 <= i <= n
        ensures HoldsAt(r, history, i, exact)
      {
        if i < n { RolledAt(l, history, payload, exact, i); } else { NothingAt(r, history, n, exact); }
      }
    }
  }

  /** The last segment is empty exactly when it starts at the next offset. */
  lemma LastIsEmpty(l: LogState, history: seq<Bytes>, exact: bool)
    requires Holds(l, history, exact)
    ensures var active := l.segments[|l.segments| - 1];
            active.base <= l.next && (active.logSize > 0 <==> active.base < l.next)
  {
    hide EncodeIndex, ValidIndex, SegmentEntries, BuildIndex;
    assert HoldsAt(l, history, |l.segments| - 1, exact);
  }

  lemma RolledAt(l: LogState, history: seq<Bytes>, payload: Bytes, exact: bool, i: nat)
    requires Holds(l, history, exact) && i < |l.segments|
    ensures HoldsAt(Roll(l, payload), history, i, exact)
  {
    hide SegmentHolds, Contiguous;
    var r := Roll(l, payload);
    assert HoldsAt(l, history, i, exact);
    assert SegmentEnd(r, i) == SegmentEnd(l, i) && r.segments[i] == l.segments[i];
  }

  lemma NothingAt(l: LogState, history: seq<Bytes>, i: nat, exact: bool)
    requires i < |l.segments| && l.segments[i] == EmptySegment(|history|) && SegmentEnd(l, i) == |history|
    ensures HoldsAt(l, history, i, exact)
  {
    hide SegmentHolds;
    assert EntriesOf(l, history, i) == [];
    EmptySegmentHolds(|history|);
    NotExact(l.segments[i], [], exact);
  }

  lemma NotExact(s: SegmentState, es: seq<Entry>, exact: bool)
    requires SegmentHolds(s, es, true)
    ensures SegmentHolds(s, es, exact)
  {
    hide EncodeEntries, EncodeIndex, ValidIndex, SegmentEntries, BuildIndex;
  }

  lemma RollContiguous(l: LogState, payload: Bytes)
    requires Contiguous(l) && l.segments[|l.segments| - 1].base < l.next
    ensures Contiguous(Roll(l, payload))
  {
    var r, n := Roll(l, payload), |l.segments|;
    if r != l {
      forall i | 0 <= i <= n
        ensures r.segments[i].base <= SegmentEnd(r, i) && (i < n ==> r.segments[i].base < SegmentEnd(r, i))
      {
        if i < n - 1 { assert SegmentEnd(r, i) == SegmentEnd(l, i); }
      }
    }
  }

  /** Writing the last segment touches only the end of the history. */
  ghost predicate Replaced(l: LogState, l': LogState) {
    && l.segments != [] && |l'.segments| == |l.segments|
    && (forall i :: 0 <= i < |l.segments| - 1 ==> l'.segments[i] == l.segments[i])
    && l'.segments[|l.segments| - 1].base == l.segments[|l.segments| - 1].base <= l'.next < TwoTo63
  }

  lemma ReplacedContiguous(l: LogState, l': LogState)
    requires Contiguous(l) && Replaced(l, l')
    ensures Contiguous(l')
  {
    forall i | 0 <= i < |l.segments| - 1 ensures l'.segments[i].base < SegmentEnd(l', i) {
      assert l.segments[i].base < SegmentEnd(l, i);
    }
  }

  lemma ReplacedEarlier(l: LogState, history: seq<Bytes>, l': LogState, h': seq<Bytes>, i: nat, exact: bool)
    requires Contiguous(l) && Replaced(l, l') && i < |l.segments| - 1 && HoldsAt(l, history, i, exact)
    requires 0 <= l.segments[|l.segments| - 1].base <= |history| && history[..l.segments[|l.segments| - 1].base] <= h'
    ensures HoldsAt(l', h', i, exact)
  {
    hide SegmentHolds, EntriesFrom;
    BasesAscend(l, i, |l.segments| - 1);
    var a, b, base := l.segments[i].base, SegmentEnd(l, i), l.segments[|l.segments| - 1].base;
    assert SegmentEnd(l', i) == b;
    SliceOfPrefix(history, base, a, b);
    SliceOfPrefix(h', base, a, b);
    assert h'[..base] == history[..base];
  }

  lemma ReplaceLast(l: LogState, history: seq<Bytes>, s: SegmentState, tail: seq<Bytes>, exact: bool)
    requires Holds(l, history, exact)
    requires s.base == l.segments[|l.segments| - 1].base && s.base + |tail| < TwoTo63
    requires SegmentHolds(s, EntriesFrom(s.base, tail), exact)
    ensures 0 <= s.base <= |history|
    ensures Holds(LogState(l.segments[|l.segments| - 1 := s], s.base + |tail|), history[..s.base] + tail, exact)
  {
    hide SegmentHolds, EntriesFrom, Contiguous, HoldsAt;
    LastHolds(l, history, exact);
    var last := |l.segments| - 1;
    BasesInRange(l, last);
    var l', h' := LogState(l.segments[last := s], s.base + |tail|), history[..s.base] + tail;
    ReplacedContiguous(l, l');
    LastPayloads(l', h', s, tail, exact);
    forall i | 0 <= i < last ensures HoldsAt(l', h', i, exact) {
      assert HoldsAt(l, history, i, exact);
      ReplacedEarlier(l, history, l', h', i, exact);
    }
  }

  lemma LastPayloads(l: LogState, history: seq<Bytes>, s: SegmentState, tail: seq<Bytes>, exact: bool)
    requires l.segments != [] && l.segments[|l.segments| - 1] == s
    requires 0 <= s.base && l.next == s.base + |tail| == |history|
    requires history[s.base..] == tail && SegmentHolds(s, EntriesFrom(s.base, tail), exact)
    ensures HoldsAt(l, history, |l.segments| - 1, exact)
  {
    hide SegmentHolds, EntriesFrom;
    assert SegmentPayloads(l, history, |l.segments| - 1) == tail;
  }

  lemma PayloadAppend(s: SegmentState, tail: seq<Bytes>, payload: Bytes, exact: bool)
    requires SegmentHolds(s, EntriesFrom(s.base, tail), exact)
    requires EntryFits(Entry(s.base + |tail|, payload))
    requires tail == [] || s.logSize + EntryHeaderSize + |payload| <= MaxSegmentBytes
    ensures SegmentHolds(AppendToSegment(s, s.base + |tail|, payload), EntriesFrom(s.base, tail + [payload]), exact)
  {
    hide AppendToSegment, SegmentHolds;
    var es := EntriesFrom(s.base, tail);
    assert EntriesFrom(s.base, tail + [payload]) == es + [Entry(s.base + |es|, payload)];
    SegmentAppend(s, es, payload, exact);
  }

  /** Appending adds exactly one record, at the end of the history. */
  lemma AppendHolds(l: LogState, history: seq<Bytes>, payload: Bytes, exact: bool)
    requires Holds(l, history, exact) && Appendable(l, payload)
    ensures Holds(Append(l, payload), history + [payload], exact)
  {
    hide SegmentHolds, EntriesFrom, AppendToSegment, Roll, Holds;
    NonEmpty(l, history, exact);
    RollHolds(l, history, payload, exact);
    var r := Roll(l, payload);
    LastHolds(r, history, exact);
    var last := |r.segments| - 1;
    var s := r.segments[last];
    var tail := history[s.base..];
    PayloadAppend(s, tail, payload, exact);
    ReplaceLast(r, history, AppendToSegment(s, l.next, payload), tail + [payload], exact);
    assert history[..s.base] + (tail + [payload]) == history + [payload];
  }

  lemma LastHolds(l: LogState, history: seq<Bytes>, exact: bool)
    requires Holds(l, history, exact)
    ensures l.segments != [] && l.next == |history|
    ensures var s := l.segments[|l.segments| - 1];
            0 <= s.base <= |history| && SegmentHolds(s, EntriesFrom(s.base, history[s.base..]), exact)
  {
    hide SegmentHolds, EntriesFrom;
    assert HoldsAt(l, history, |l.segments| - 1, exact);
    assert SegmentPayloads(l, history, |l.segments| - 1) == history[l.segments[|l.segments| - 1].base..];
  }

  // ----- a crash loses the end of files; reopening recovers -----

  /** Cutting entries off a segment leaves a segment. */
  lemma SegmentPrefix(base: int, es: seq<Entry>, m: nat)
    requires SegmentEntries(base, es) && m <= |es|
    ensures SegmentEntries(base, es[..m])
  {
    SizeMonotone(es, m, m);
  }

  /** Index entries that point below the cut stay valid. */
  lemma ValidIndexCut(index: seq<IndexEntry>, es: seq<Entry>, n: nat, m: nat)
    requires ValidIndex(index, es) && n <= |index| && m <= |es|
    requires forall j :: 0 <= j < n ==> index[j].position < Size(es[..m])
    ensures ValidIndex(index[..n], es[..m])
  {
    forall j | 0 <= j < n
      ensures NamesBoundary(index[j], es[..m])
    {
      assert NamesBoundary(index[j], es);
      var k := index[j].relOffset;
      if k >= m { SizeMonotone(es, m, k); }
      assert es[..m][..k] == es[..k];
    }
  }

  /** The scan and truncation of a log file cut at any byte. */
  lemma RecoverCut(es: seq<Entry>, cut: nat)
    requires AllFit(es) && cut <= Size(es)
    ensures var file, m := EncodeEntries(es)[..cut], WholeCount(es, cut);
            && ScanEntries(file, 0) == es[..m]
            && Size(es[..m]) <= cut
            && file[..Size(es[..m])] == EncodeEntries(es[..m])
            && ScanEntries(EncodeEntries(es[..m]), 0) == es[..m]
  {
    hide ScanEntries, EncodeEntry, WholeCount;
    var m := WholeCount(es, cut);
    assert es[..0] == [] && es[0..m] == es[..m];
    ScanCut(es, 0, cut);
    EncodePrefix(es, m);
    ScanIntact(es[..m]);
  }

  predicate IndexLoads(s: SegmentState, indexCut: nat, size: nat)
    requires indexCut <= |s.indexFile|
  {
    LoadIndex(s.indexFile[..indexCut], size).Some?
  }

  /** What loadIndex accepts: a file cut between entries, none of them pointing
      past the log, and not empty unless the log is. */
  lemma LoadCut(s: SegmentState, es: seq<Entry>, indexCut: nat, size: nat, exact: bool)
    requires SegmentHolds(s, es, exact) && indexCut <= |s.indexFile|
    ensures var n := indexCut / IndexEntrySize;
            && (IndexLoads(s, indexCut, size) <==>
                  && indexCut % IndexEntrySize == 0
                  && (n == 0 ==> size == 0)
                  && (forall j :: 0 <= j < n ==> s.index[j].position < size))
            && (IndexLoads(s, indexCut, size) ==>
                  && LoadIndex(s.indexFile[..indexCut], size).value == s.index[..n]
                  && s.indexFile[..indexCut] == EncodeIndex(s.index[..n]))
  {
    hide DecodeIndex, EncodeIndex, SegmentEntries, ValidIndex;
    var n := indexCut / IndexEntrySize;
    ValidIndexBound(s.base, s.index, es);
    if indexCut % IndexEntrySize == 0 {
      DecodeIndexCut(s.index, indexCut);
      assert indexCut == IndexEntrySize * n;
    }
  }

  function CutSegment(s: SegmentState, cut: nat, indexCut: nat): DiskSegment
    requires cut <= |s.log| && indexCut <= |s.indexFile|
  {
    DiskSegment(s.base, s.log[..cut], s.indexFile[..indexCut])
  }

  /** The index file lost whole entries, and no part of one, while the log
      still has what they pointed to. */
  predicate ShortIndex(base: int, kept: seq<Entry>, indexCut: nat) {
    indexCut % IndexEntrySize == 0 && 0 < indexCut / IndexEntrySize < |BuildIndex(base, kept).index|
  }

  lemma SegmentFits(base: int, es: seq<Entry>)
    requires SegmentEntries(base, es)
    ensures AllFit(es)
  {}

  /** If the index was the one appends build, the reopened index is again the
      one appends would have built for the surviving entries, except when it is
      short: loadIndex then accepts the shorter index. */
  lemma RecoveredIndexExact(s: SegmentState, es: seq<Entry>, cut: nat, indexCut: nat)
    requires SegmentHolds(s, es, true)
    requires cut <= |s.log| && indexCut <= |s.indexFile|
    ensures var kept := es[..WholeCount(es, cut)];
            ExactIndex(OpenSegment(CutSegment(s, cut, indexCut)), kept) <==> !ShortIndex(s.base, kept, indexCut)
  {
    hide ScanEntries, EncodeEntries, LoadIndex, BuildIndex, WholeCount, EncodeIndex, SegmentEntries, Size;
    var m, n := WholeCount(es, cut), indexCut / IndexEntrySize;
    var size, kept, part := Size(es[..m]), es[..m], BuildIndex(s.base, es[..m]).index;
    assert AllFit(es) by { SegmentFits(s.base, es); }
    RecoverCut(es, cut);
    SegmentPrefix(s.base, es, m);
    LoadCut(s, es, indexCut, size, true);
    BuildIndexPrefix(s.base, es, m);
    BuildIndexValid(s.base, kept);
    forall j | 0 <= j < |part|
      ensures part[j].position < size && part[j] == s.index[j]
    {
      assert NamesBoundary(part[j], kept);
      SizeMonotone(kept, part[j].relOffset, |kept|);
      assert kept[..|kept|] == kept;
    }
  }

  /** Reopening a segment whose files were cut at any bytes keeps exactly its
      whole entries, with a valid index over them. */
  lemma OpenCutSegment(s: SegmentState, es: seq<Entry>, cut: nat, indexCut: nat, exact: bool)
    requires SegmentHolds(s, es, exact) && cut <= |s.log| && indexCut <= |s.indexFile|
    ensures var s', kept := OpenSegment(CutSegment(s, cut, indexCut)), es[..WholeCount(es, cut)];
            SegmentHolds(s', kept, exact && !ShortIndex(s.base, kept, indexCut)) && s'.base == s.base
  {
    hide ScanEntries, EncodeEntries, LoadIndex, BuildIndex, WholeCount, EncodeIndex, SegmentEntries, ValidIndex,
         ShortIndex;
    var m := WholeCount(es, cut);
    var size := Size(es[..m]);
    assert AllFit(es) by { SegmentFits(s.base, es); }
    RecoverCut(es, cut);
    SegmentPrefix(s.base, es, m);
    LoadCut(s, es, indexCut, size, exact);
    if exact { RecoveredIndexExact(s, es, cut, indexCut); }
    if IndexLoads(s, indexCut, size) {
      ValidIndexCut(s.index, es, indexCut / IndexEntrySize, m);
    } else {
      BuildIndexValid(s.base, es[..m]);
    }
  }

  ghost predicate Cuts(l: LogState, cut: nat, indexCuts: seq<nat>) {
    && l.segments != []
    && |indexCuts| == |l.segments|
    && cut <= |l.segments[|l.segments| - 1].log|
    && forall i :: 0 <= i < |indexCuts| ==> indexCuts[i] <= |l.segments[i].indexFile|
  }

  function LogCut(l: LogState, cut: nat, i: nat): nat
    requires i < |l.segments|
  {
    if i == |l.segments| - 1 then cut else |l.segments[i].log|
  }

  /** The directory after a crash: the last .log file is cut at any byte, and
      each .index file at any byte of its own. */
  ghost function CrashImage(l: LogState, cut: nat, indexCuts: seq<nat>): (dir: seq<DiskSegment>)
    requires Cuts(l, cut, indexCuts)
    ensures |dir| == |l.segments|
  {
    seq(|l.segments|, i requires 0 <= i < |l.segments| => CutSegment(l.segments[i], LogCut(l, cut, i), indexCuts[i]))
  }

  /** The entries of segment i that a crash leaves. */
  ghost function Kept(l: LogState, history: seq<Bytes>, cut: nat, i: nat): seq<Entry>
    requires Contiguous(l) && l.next == |history| && i < |l.segments|
  {
    BasesInRange(l, i);
    var es := EntriesOf(l, history, i);
    es[..WholeCount(es, LogCut(l, cut, i))]
  }

  /** How much of the history a crash leaves: all earlier segments and the
      whole entries of the cut one. */
  ghost function Surviving(l: LogState, history: seq<Bytes>, cut: nat): nat
    requires Contiguous(l) && l.next == |history|
  {
    var last := |l.segments| - 1;
    BasesInRange(l, last);
    l.segments[last].base + |Kept(l, history, cut, last)|
  }

  /** No index file lost whole entries that the surviving log still has. */
  ghost predicate NoShortIndex(l: LogState, history: seq<Bytes>, cut: nat, indexCuts: seq<nat>)
    requires Contiguous(l) && l.next == |history| && |indexCuts| == |l.segments|
  {
    forall i :: 0 <= i < |indexCuts| ==> !ShortIndex(l.segments[i].base, Kept(l, history, cut, i), indexCuts[i])
  }

  lemma RecoverNextIs(s: SegmentState, es: seq<Entry>, exact: bool)
    requires SegmentHolds(s, es, exact) && 0 <= s.base && s.base + |es| < TwoTo63
    ensures RecoverNext(s) == s.base + |es|
  {
    hide ScanEntries, EncodeEntries, ValidIndex;
    ScanIntact(es);
    NarrowIdentity(s.base + |es|, TwoTo64);
  }

  lemma EntriesPrefix(base: int, payloads: seq<Bytes>, m: nat)
    requires m <= |payloads|
    ensures EntriesFrom(base, payloads[..m]) == EntriesFrom(base, payloads)[..m]
  {}

  /** Each segment of the crash image reopens with the entries it kept. */
  lemma SegmentReopens(l: LogState, history: seq<Bytes>, cut: nat, indexCuts: seq<nat>, exact: bool, exact': bool,
                       i: nat)
    requires Holds(l, history, exact) && Cuts(l, cut, indexCuts) && i < |l.segments|
    requires exact' ==> exact && NoShortIndex(l, history, cut, indexCuts)
    requires 0 <= l.segments[i].base <= SegmentEnd(l, i) <= |history|
    ensures var s, kept := OpenSegment(CrashImage(l, cut, indexCuts)[i]), Kept(l, history, cut, i);
            && s.base == l.segments[i].base
            && SegmentHolds(s, kept, exact')
            && (i < |l.segments| - 1 ==> kept == EntriesOf(l, history, i))
  {
    hide EncodeEntries, ValidIndex, SegmentEntries, OpenSegment, BuildIndex, ShortIndex;
    assert HoldsAt(l, history, i, exact);
    var s, es := l.segments[i], EntriesOf(l, history, i);
    OpenCutSegment(s, es, LogCut(l, cut, i), indexCuts[i], exact);
    assert es[..|es|] == es;
  }

  lemma LastSegmentReopens(l: LogState, history: seq<Bytes>, cut: nat, indexCuts: seq<nat>, exact: bool, exact': bool)
    requires Holds(l, history, exact) && Cuts(l, cut, indexCuts)
    requires exact' ==> exact && NoShortIndex(l, history, cut, indexCuts)
    ensures var last := |l.segments| - 1;
            var s, base := OpenSegment(CrashImage(l, cut, indexCuts)[last]), l.segments[last].base;
            var end := Surviving(l, history, cut);
            && s.base == base && 0 <= base <= end <= |history|
            && SegmentHolds(s, EntriesFrom(base, history[base..end]), exact')
            && RecoverNext(s) == end
  {
    hide SegmentHolds, EntriesFrom, OpenSegment, RecoverNext, NoShortIndex, CrashImage, Cuts;
    var last := |l.segments| - 1;
    BasesInRange(l, last);
    SegmentReopens(l, history, cut, indexCuts, exact, exact', last);
    var base, kept := l.segments[last].base, Kept(l, history, cut, last);
    EntriesPrefix(base, history[base..l.next], |kept|);
    assert history[base..l.next][..|kept|] == history[base..base + |kept|];
    RecoverNextIs(OpenSegment(CrashImage(l, cut, indexCuts)[last]), kept, exact');
  }

  /** The reopened segments: full ones as they were, the last one up to the new end. */
  ghost predicate Reopened(l: LogState, history: seq<Bytes>, reopened: LogState, exact: bool) {
    && Contiguous(l) && l.next == |history| && |reopened.segments| == |l.segments|
    && 0 <= l.segments[|l.segments| - 1].base <= reopened.next <= |history|
    && forall i :: 0 <= i < |l.segments| ==> ReopenedAt(l, history, reopened, exact, i)
  }

  function EndAt(l: LogState, reopened: LogState, i: nat): int
    requires i < |l.segments|
  {
    if i < |l.segments| - 1 then l.segments[i + 1].base else reopened.next
  }

  ghost predicate ReopenedAt(l: LogState, history: seq<Bytes>, reopened: LogState, exact: bool, i: nat)
    requires i < |l.segments| == |reopened.segments|
  {
    && reopened.segments[i].base == l.segments[i].base
    && 0 <= l.segments[i].base <= EndAt(l, reopened, i) <= |history|
    && SegmentHolds(reopened.segments[i],
                    EntriesFrom(l.segments[i].base, history[l.segments[i].base..EndAt(l, reopened, i)]), exact)
  }

  lemma ReopenedSegment(l: LogState, history: seq<Bytes>, reopened: LogState, exact: bool, i: nat)
    requires Reopened(l, history, reopened, exact) && i < |l.segments|
    ensures HoldsAt(reopened, history[..reopened.next], i, exact)
  {
    hide SegmentHolds, EntriesFrom;
    var last, h' := |l.segments| - 1, history[..reopened.next];
    assert ReopenedAt(l, history, reopened, exact, i);
    if i < last {
      BasesAscend(l, i + 1, last);
      assert ReopenedAt(l, history, reopened, exact, i + 1);
    }
    var a, b := l.segments[i].base, EndAt(l, reopened, i);
    assert SegmentEnd(reopened, i) == b <= reopened.next;
    SliceOfPrefix(history, reopened.next, a, b);
  }

  lemma SliceOfPrefix<T>(xs: seq<T>, n: int, a: int, b: int)
    requires 0 <= a <= b <= n <= |xs|
    ensures xs[..n][a..b] == xs[a..b]
  {}

  lemma ReopenedContiguous(l: LogState, history: seq<Bytes>, reopened: LogState, exact: bool)
    requires Reopened(l, history, reopened, exact)
    ensures Contiguous(reopened)
  {
    hide SegmentHolds, EntriesFrom;
    forall i | 0 <= i < |l.segments| ensures reopened.segments[i].base == l.segments[i].base {
      assert ReopenedAt(l, history, reopened, exact, i);
    }
    forall i | 0 <= i < |l.segments| - 1 ensures reopened.segments[i].base < SegmentEnd(reopened, i) {
      assert l.segments[i].base < SegmentEnd(l, i);
    }
  }

  lemma ReopenedHolds(l: LogState, history: seq<Bytes>, reopened: LogState, exact: bool)
    requires Reopened(l, history, reopened, exact)
    ensures Holds(reopened, history[..reopened.next], exact)
  {
    hide ReopenedAt, HoldsAt, Contiguous;
    ReopenedContiguous(l, history, reopened, exact);
    forall i | 0 <= i < |reopened.segments| ensures HoldsAt(reopened, history[..reopened.next], i, exact) {
      ReopenedSegment(l, history, reopened, exact, i);
    }
  }

  /** After a crash, opening the directory gives a log that holds exactly the
      surviving prefix of the history: every invariant is back. */
  lemma OpenHolds(l: LogState, history: seq<Bytes>, cut: nat, indexCuts: seq<nat>, exact: bool)
    requires Holds(l, history, exact) && Cuts(l, cut, indexCuts)
    ensures Surviving(l, history, cut) <= |history|
    ensures Holds(Open(CrashImage(l, cut, indexCuts)), history[..Surviving(l, history, cut)],
                  exact && NoShortIndex(l, history, cut, indexCuts))
  {
    hide SegmentHolds, EntriesFrom, OpenSegment, RecoverNext, CutSegment, Surviving, NoShortIndex, Holds, CrashImage,
         Open;
    NonEmpty(l, history, exact);
    HoldsContiguous(l, history, exact);
    var exact' := exact && NoShortIndex(l, history, cut, indexCuts);
    LastSegmentReopens(l, history, cut, indexCuts, exact, exact');
    var reopened := Open(CrashImage(l, cut, indexCuts));
    OpenIs(CrashImage(l, cut, indexCuts));
    forall i | 0 <= i < |l.segments| ensures ReopenedAt(l, history, reopened, exact', i) {
      if i < |l.segments| - 1 {
        BasesInRange(l, i);
        SegmentReopens(l, history, cut, indexCuts, exact, exact', i);
      }
    }
    ReopenedHolds(l, history, reopened, exact');
  }

  lemma OpenIs(dir: seq<DiskSegment>)
    requires dir != []
    ensures |Open(dir).segments| == |dir| && forall i :: 0 <= i < |dir| ==> Open(dir).segments[i] == OpenSegment(dir[i])
    ensures Open(dir).next == RecoverNext(OpenSegment(dir[|dir| - 1]))
  {
    hide OpenSegment, RecoverNext;
  }

  lemma HoldsContiguous(l: LogState, history: seq<Bytes>, exact: bool)
    requires Holds(l, history, exact)
    ensures Contiguous(l)
  {}

  // ----- whole runs -----

  datatype LogOp =
    | AppendOp(payload: Bytes)
    | CrashOp(cut: nat, indexCuts: seq<nat>)

  /** `exact` turns false at the first crash that leaves a short index. */
  datatype LogRun = LogRun(log: LogState, history: seq<Bytes>, exact: bool)

  /** One operation; one that cannot happen changes nothing. */
  ghost function StepLog(r: LogRun, op: LogOp): (r': LogRun)
    requires Holds(r.log, r.history, r.exact)
    ensures Holds(r'.log, r'.history, r'.exact)
  {
    match op
    case AppendOp(p) =>
      if Appendable(r.log, p) then
        AppendHolds(r.log, r.history, p, r.exact);
        LogRun(Append(r.log, p), r.history + [p], r.exact)
      else r
    case CrashOp(cut, indexCuts) =>
      if Cuts(r.log, cut, indexCuts) then
        OpenHolds(r.log, r.history, cut, indexCuts, r.exact);
        LogRun(Open(CrashImage(r.log, cut, indexCuts)), r.history[..Surviving(r.log, r.history, cut)],
               r.exact && NoShortIndex(r.log, r.history, cut, indexCuts))
      else r
  }

  /** Through any mix of appends, rolls, torn files, lost or torn indexes and
      reopenings, the log holds its history. */
  ghost function RunLog(ops: seq<LogOp>): (r: LogRun)
    ensures Holds(r.log, r.history, r.exact)
  {
    if ops == [] then EmptyLogHolds(); LogRun(EmptyLog, [], true)
    else StepLog(RunLog(ops[..|ops| - 1]), ops[|ops| - 1])
  }

  /** Every segment of a reachable log is one entry or at most 1 MiB, so each
      index entry fits int32, and each names a real boundary, in order. */
  lemma SegmentBound(ops: seq<LogOp>, i: nat)
    requires i < |RunLog(ops).log.segments|
    ensures var l, h := RunLog(ops).log, RunLog(ops).history;
            var s := l.segments[i];
            && HoldsAt(l, h, i, RunLog(ops).exact)
            && (|EntriesOf(l, h, i)| <= 1 || |s.log| <= MaxSegmentBytes)
            && (forall j :: 0 <= j < |s.index| ==>
                  && 0 <= s.index[j].relOffset < MaxSegmentBytes
                  && 0 <= s.index[j].position < MaxSegmentBytes
                  && NamesBoundary(s.index[j], EntriesOf(l, h, i)))
            && (forall j, k :: 0 <= j < k < |s.index| ==>
                  s.index[j].relOffset < s.index[k].relOffset && s.index[j].position < s.index[k].position)
  {
    var l, h := RunLog(ops).log, RunLog(ops).history;
    assert HoldsAt(l, h, i, RunLog(ops).exact);
    ValidIndexBound(l.segments[i].base, l.segments[i].index, EntriesOf(l, h, i));
  }

  // ----- segments are filled -----

  /** Segment i had no room for the first entry of the next one. */
  ghost predicate FullAt(l: LogState, history: seq<Bytes>, i: nat)
    requires i + 1 < |l.segments|
  {
    0 <= l.segments[i + 1].base < |history| ==>
      l.segments[i].logSize + EntryHeaderSize + |history[l.segments[i + 1].base]| > MaxSegmentBytes
  }

  ghost predicate Packed(l: LogState, history: seq<Bytes>) {
    forall i :: 0 <= i < |l.segments| - 1 ==> FullAt(l, history, i)
  }

  /** The last segment, if a crash emptied it, is not given what its predecessor has room for. */
  predicate FillsUp(l: LogState, payload: Bytes) {
    var n := |l.segments|;
    n > 1 && l.segments[n - 1].base == l.next ==>
      l.segments[n - 2].logSize + EntryHeaderSize + |payload| > MaxSegmentBytes
  }

  /** An append leaves every segment but the last without room for what follows it,
      if and only if it does not start a segment that a crash emptied too early. */
  lemma AppendPackedIff(l: LogState, history: seq<Bytes>, payload: Bytes, exact: bool)
    requires Holds(l, history, exact) && Packed(l, history)
    ensures Packed(Append(l, payload), history + [payload]) <==> FillsUp(l, payload)
  {
    hide HoldsAt, AppendToSegment;
    LastIsEmpty(l, history, exact);
    var n, history', after := |l.segments|, history + [payload], Append(l, payload);
    forall i | 0 <= i < n - 1 && (i < n - 2 || l.segments[n - 1].base < l.next)
      ensures FullAt(after, history', i)
    {
      BasesAscend(l, 0, i + 1);
      BasesAscend(l, i + 1, n - 1);
      assert FullAt(l, history, i);
      if i + 1 < n - 1 { assert SegmentEnd(l, i + 1) == l.segments[i + 2].base; BasesAscend(l, i + 2, n - 1); }
    }
    if n > 1 && l.segments[n - 1].base == l.next {
      assert FullAt(after, history', n - 2) <==> FillsUp(l, payload);
    } else if |after.segments| > n { assert FullAt(after, history', n - 1); }
  }

  /** Without crashes, every segment but the last has no room for what follows it. */
  lemma {:induction false} NoCrashPacked(ops: seq<LogOp>)
    requires forall i :: 0 <= i < |ops| ==> ops[i].AppendOp?
    ensures var r := RunLog(ops);
            && Packed(r.log, r.history)
            && (|r.log.segments| > 1 ==> r.log.segments[|r.log.segments| - 1].base < r.log.next)
  {
    hide HoldsAt, AppendToSegment, Packed, Contiguous;
    if ops == [] { EmptyPacked(); }
    else {
      var r := RunLog(ops[..|ops| - 1]);
      NoCrashPacked(ops[..|ops| - 1]);
      var payload := ops[|ops| - 1].payload;
      if Appendable(r.log, payload) {
        AppendPackedIff(r.log, r.history, payload, r.exact);
        LastIsEmpty(r.log, r.history, r.exact);
      }
    }
  }

  lemma EmptyPacked()
    ensures Packed(EmptyLog, []) && |EmptyLog.segments| == 1
  {}

  // ----- a run that leaves a short index -----

  function Copies(b: Bytes, k: nat): (r: seq<Bytes>)
    ensures |r| == k
  {
    seq(k, _ => b)
  }

  lemma CopiesGrow(b: Bytes, k: nat)
    ensures Copies(b, k + 1) == Copies(b, k) + [b]
    ensures EntriesFrom(0, Copies(b, k + 1)) == EntriesFrom(0, Copies(b, k)) + [Entry(k, b)]
  {}

  lemma {:induction false} SizeOfCopies(b: Bytes, k: nat)
    ensures Size(EntriesFrom(0, Copies(b, k))) == k * (EntryHeaderSize + |b|)
  {
    hide Copies, EntriesFrom;
    if k > 0 {
      SizeOfCopies(b, k - 1);
      CopiesGrow(b, k - 1);
      var init := EntriesFrom(0, Copies(b, k - 1));
      assert (init + [Entry(k - 1, b)])[..k - 1] == init;
    }
  }

  /** Three entries of at least an index interval each: the second and the third are indexed. */
  lemma IndexOfCopies(b: Bytes)
    requires IndexIntervalBytes <= EntryHeaderSize + |b| < 0x1_0000
    ensures |BuildIndex(0, EntriesFrom(0, Copies(b, 3))).index| == 2
  {
    hide BuildIndex, Copies, EntriesFrom, Signed32;
    CopiesGrow(b, 0);
    CopiesGrow(b, 1);
    CopiesGrow(b, 2);
    SizeOfCopies(b, 0);
    SizeOfCopies(b, 1);
    SizeOfCopies(b, 2);
    var e0, e1, e2 := EntriesFrom(0, Copies(b, 0)), EntriesFrom(0, Copies(b, 1)), EntriesFrom(0, Copies(b, 2));
    assert BuildIndex(0, e0) == Indexed([], 0) by { NothingIndexed(b); }
    BuildIndexStep(0, e0, Entry(0, b));
    BuildIndexStep(0, e1, Entry(1, b));
    BuildIndexStep(0, e2, Entry(2, b));
  }

  lemma NothingIndexed(b: Bytes)
    ensures BuildIndex(0, EntriesFrom(0, Copies(b, 0))) == Indexed([], 0)
  {}

  function Appends(b: Bytes, k: nat): (ops: seq<LogOp>)
    ensures |ops| == k
  {
    seq(k, _ => AppendOp(b))
  }

  /** Few and small records stay in one segment. */
  lemma {:induction false} AppendsStay(b: Bytes, k: nat)
    requires |b| < 0x1_0000 && k <= 3
    ensures var r := RunLog(Appends(b, k));
            r.exact && r.history == Copies(b, k) && |r.log.segments| == 1 && r.log.segments[0].base == 0
  {
    hide Holds, Append, Copies, EntriesFrom, Size, SegmentHolds;
    if k == 0 { assert Appends(b, 0) == [] && Copies(b, 0) == [] by { NoCopies(b); } }
    else {
      AppendsStay(b, k - 1);
      var r := RunLog(Appends(b, k - 1));
      assert Appends(b, k)[..k - 1] == Appends(b, k - 1);
      LastHolds(r.log, r.history, r.exact);
      assert r.history[0..] == r.history;
      SizeOfCopies(b, k - 1);
      LogSizeIs(r.log.segments[0], EntriesFrom(0, Copies(b, k - 1)), true);
      StaysOne(r.log, b);
      CopiesGrow(b, k - 1);
    }
  }

  lemma NoCopies(b: Bytes)
    ensures Copies(b, 0) == []
  {}

  lemma StaysOne(l: LogState, payload: Bytes)
    requires |l.segments| == 1 && l.segments[0].logSize + EntryHeaderSize + |payload| <= MaxSegmentBytes
    ensures |Append(l, payload).segments| == 1 && Append(l, payload).segments[0].base == l.segments[0].base
  {
    hide AppendToSegment;
  }

  lemma LogSizeIs(s: SegmentState, es: seq<Entry>, exact: bool)
    requires SegmentHolds(s, es, exact)
    ensures s.logSize == Size(es) && |s.log| == Size(es)
  {
    hide Size, BuildIndex;
  }

  /** After three appends and a crash that keeps the log and the first index entry
      only, the reopened index is shorter than the one appends would have built. */
  lemma ShortIndexHappens(b: Bytes)
    requires IndexIntervalBytes <= EntryHeaderSize + |b| < 0x1_0000
    ensures var before := RunLog(Appends(b, 3));
            var after := StepLog(before, CrashOp(3 * (EntryHeaderSize + |b|), [IndexEntrySize]));
            && |after.log.segments| == 1 && after.history == before.history == Copies(b, 3)
            && before.exact && !after.exact && !ExactIndex(after.log.segments[0], EntriesFrom(0, Copies(b, 3)))
  {
    hide Holds, AppendToSegment, Copies, OpenSegment, BuildIndex, EntriesFrom, RunLog, Size, WholeCount, SegmentHolds;
    AppendsStay(b, 3);
    var before := RunLog(Appends(b, 3));
    var l, cut, s := before.log, 3 * (EntryHeaderSize + |b|), before.log.segments[0];
    var es := EntriesFrom(0, Copies(b, 3));
    NonEmpty(l, before.history, true);
    HoldsContiguous(l, before.history, true);
    LastHolds(l, before.history, true);
    assert before.history[0..] == before.history;
    SizeOfCopies(b, 3);
    LogSizeIs(s, es, true);
    IndexOfCopies(b);
    IndexFileIs(s, es);
    assert Cuts(l, cut, [IndexEntrySize]);
    AllWhole(es);
    assert before.history[0..|before.history|] == before.history;
    assert EntriesOf(l, before.history, 0) == es;
    assert Kept(l, before.history, cut, 0) == es;
    assert ShortIndex(0, es, IndexEntrySize);
    RecoveredIndexExact(s, es, cut, IndexEntrySize);
    OpenIs(CrashImage(l, cut, [IndexEntrySize]));
  }

  lemma IndexFileIs(s: SegmentState, es: seq<Entry>)
    requires SegmentHolds(s, es, true) && s.base == 0
    ensures |s.indexFile| == IndexEntrySize * |BuildIndex(0, es).index|
  {
    hide BuildIndex, Size, EncodeEntries;
  }

  lemma AllWhole(es: seq<Entry>)
    ensures WholeCount(es, Size(es)) == |es| && es[..|es|] == es
  {}
}
