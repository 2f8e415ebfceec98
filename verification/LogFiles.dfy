/**
 The bytes of one log segment: entries in the .log file, sparse index entries in
 the .index file, what a recovery scan finds in a possibly torn file, and the
 index that appends build.
 */
module LogFiles {
  import opened Wire

  const EntryHeaderSize := 12
  const IndexEntrySize := 8
  const MaxSegmentBytes := 0x10_0000
  const IndexIntervalBytes := 0x1000

  // ----- entries -----

  datatype Entry = Entry(offset: int, payload: Bytes)

  /** An int64 offset and a length that the uint32 header field can hold. */
  predicate EntryFits(e: Entry) {
    IsInt64(e.offset) && |e.payload| < TwoTo32
  }

  predicate AllFit(es: seq<Entry>) {
    forall k :: 0 <= k < |es| ==> EntryFits(es[k])
  }

  function EntrySize(e: Entry): nat {
    EntryHeaderSize + |e.payload|
  }

  function EncodeEntry(e: Entry): (b: Bytes)
    ensures |b| == EntrySize(e)
  {
    U64(e.offset % TwoTo64) + U32(|e.payload| % TwoTo32) + e.payload
  }

  function Size(es: seq<Entry>): nat {
    if es == [] then 0 else Size(es[..|es| - 1]) + EntrySize(es[|es| - 1])
  }

  function EncodeEntries(es: seq<Entry>): (b: Bytes)
    ensures |b| == Size(es)
  {
    if es == [] then [] else EncodeEntries(es[..|es| - 1]) + EncodeEntry(es[|es| - 1])
  }

  lemma SizeStep(es: seq<Entry>, k: nat)
    requires k < |es|
    ensures Size(es[..k + 1]) == Size(es[..k]) + EntrySize(es[k])
    ensures EncodeEntries(es[..k + 1]) == EncodeEntries(es[..k]) + EncodeEntry(es[k])
  {
    assert es[..k + 1][..k] == es[..k];
  }

  lemma {:induction false} EncodePrefix(es: seq<Entry>, k: nat)
    requires k <= |es|
    ensures EncodeEntries(es[..k]) <= EncodeEntries(es)
    decreases |es| - k
  {
    if k < |es| {
      EncodePrefix(es, k + 1);
      SizeStep(es, k);
    } else {
      assert es[..k] == es;
    }
  }

  lemma {:induction false} SizeMonotone(es: seq<Entry>, j: nat, k: nat)
    requires j <= k <= |es|
    ensures Size(es[..j]) + EntryHeaderSize * (k - j) <= Size(es[..k]) <= Size(es)
    decreases |es| - j
  {
    if j < k {
      SizeStep(es, j);
      SizeMonotone(es, j + 1, k);
    } else if k < |es| {
      SizeStep(es, k);
      SizeMonotone(es, k + 1, k + 1);
    } else {
      assert es[..k] == es;
    }
  }

  // ----- reading entries back -----

  function HeaderOffset(file: Bytes, pos: nat): int
    requires pos + EntryHeaderSize <= |file|
  {
    Signed64(GetBigEndian(file[pos..pos + 8]))
  }

  function HeaderLength(file: Bytes, pos: nat): nat
    requires pos + EntryHeaderSize <= |file|
  {
    GetBigEndian(file[pos + 8..pos + 12])
  }

  predicate WholeEntryAt(file: Bytes, pos: nat) {
    pos + EntryHeaderSize <= |file| && pos + EntryHeaderSize + HeaderLength(file, pos) <= |file|
  }

  function EntryAt(file: Bytes, pos: nat): Entry
    requires WholeEntryAt(file, pos)
  {
    var start := pos + EntryHeaderSize;
    Entry(HeaderOffset(file, pos), file[start..start + HeaderLength(file, pos)])
  }

  /** The whole entries from pos on, up to the first torn one. */
  function ScanEntries(file: Bytes, pos: nat): seq<Entry>
    decreases |file| - pos
  {
    if WholeEntryAt(file, pos) then
      [EntryAt(file, pos)] + ScanEntries(file, pos + EntryHeaderSize + HeaderLength(file, pos))
    else []
  }

  lemma ScanStep(file: Bytes, pos: nat)
    requires WholeEntryAt(file, pos)
    ensures var e := EntryAt(file, pos);
            ScanEntries(file, pos) == [e] + ScanEntries(file, pos + EntrySize(e))
  {
    hide GetBigEndian, Signed64;
  }

  lemma ScanStops(file: Bytes, pos: nat)
    requires !WholeEntryAt(file, pos)
    ensures ScanEntries(file, pos) == []
  {
    hide GetBigEndian, Narrow, EntryAt;
  }

  ghost predicate StartOf(file: Bytes, all: Bytes) { file <= all }

  /** `all` has `part` at position pos. */
  ghost predicate PartAt(all: Bytes, part: Bytes, pos: nat) {
    pos + |part| <= |all| && all[pos..pos + |part|] == part
  }

  /** Reading inside a part of `all` from a file that is a prefix of it. */
  lemma SliceOfPart(file: Bytes, all: Bytes, part: Bytes, pos: nat, i: nat, j: nat)
    requires StartOf(file, all) && PartAt(all, part, pos)
    requires i <= j <= |part| && pos + j <= |file|
    ensures file[pos + i..pos + j] == part[i..j]
  {
    forall x | i <= x < j ensures file[pos + x] == part[x] {
      assert all[pos + x] == all[pos..pos + |part|][x];
    }
  }

  lemma OffsetField(e: Entry)
    requires EntryFits(e)
    ensures Signed64(GetBigEndian(EncodeEntry(e)[0..8])) == e.offset
  {
    hide U64, U32, GetBigEndian, Narrow;
    assert EncodeEntry(e)[0..8] == U64(e.offset % TwoTo64);
    U64RoundTrip(e.offset % TwoTo64);
    NarrowMod(e.offset, TwoTo64);
    NarrowIdentity(e.offset, TwoTo64);
  }

  lemma LengthField(e: Entry)
    requires EntryFits(e)
    ensures GetBigEndian(EncodeEntry(e)[8..12]) == |e.payload|
  {
    hide U64, U32, GetBigEndian;
    SmallMod(|e.payload|, TwoTo32);
    assert EncodeEntry(e)[8..12] == U32(|e.payload|);
    U32RoundTrip(|e.payload|);
  }

  lemma PayloadField(e: Entry)
    ensures EncodeEntry(e)[12..EntrySize(e)] == e.payload
  {
    hide U64, U32;
  }

  /** The bytes of entry k, as far as the file reaches. */
  lemma FieldInFile(es: seq<Entry>, k: nat, file: Bytes, i: nat, j: nat)
    requires k < |es| && StartOf(file, EncodeEntries(es))
    requires i <= j <= EntrySize(es[k]) && Size(es[..k]) + j <= |file|
    ensures file[Size(es[..k]) + i..Size(es[..k]) + j] == EncodeEntry(es[k])[i..j]
  {
    hide EncodeEntry, EncodeEntries, Size, EntrySize, PartAt, StartOf;
    EntryIsPart(es, k);
    SliceOfPart(file, EncodeEntries(es), EncodeEntry(es[k]), Size(es[..k]), i, j);
  }

  lemma EntryIsPart(es: seq<Entry>, k: nat)
    requires k < |es|
    ensures PartAt(EncodeEntries(es), EncodeEntry(es[k]), Size(es[..k]))
  {
    hide EncodeEntry, EncodeEntries, Size, EntrySize, PartAt;
    SizeStep(es, k);
    EncodePrefix(es, k + 1);
    PartOfPrefix(EncodeEntries(es[..k]), EncodeEntry(es[k]), EncodeEntries(es));
  }

  lemma PartOfPrefix(before: Bytes, part: Bytes, all: Bytes)
    requires before + part <= all
    ensures PartAt(all, part, |before|)
  {
    forall x | 0 <= x < |part| ensures all[|before| + x] == part[x] {
      assert (before + part)[|before| + x] == part[x];
    }
  }

  lemma HeaderInFile(es: seq<Entry>, k: nat, file: Bytes)
    requires k < |es| && EntryFits(es[k])
    requires file <= EncodeEntries(es) && Size(es[..k]) + EntryHeaderSize <= |file|
    ensures var pos := Size(es[..k]);
            HeaderOffset(file, pos) == es[k].offset && HeaderLength(file, pos) == |es[k].payload|
  {
    hide EncodeEntry, EncodeEntries, Size, GetBigEndian, Narrow;
    FieldInFile(es, k, file, 0, 8);
    OffsetField(es[k]);
    FieldInFile(es, k, file, 8, 12);
    LengthField(es[k]);
  }

  /** A file that is a prefix of encoded entries shows entry k at its position
      exactly when it reaches the end of that entry. */
  lemma EntryInFile(es: seq<Entry>, k: nat, file: Bytes)
    requires k < |es| && EntryFits(es[k])
    requires file <= EncodeEntries(es)
    ensures var pos := Size(es[..k]);
            && (WholeEntryAt(file, pos) <==> Size(es[..k + 1]) <= |file|)
            && (WholeEntryAt(file, pos) ==> EntryAt(file, pos) == es[k])
  {
    hide EncodeEntry, EncodeEntries, Size, GetBigEndian, Narrow;
    SizeStep(es, k);
    if Size(es[..k]) + EntryHeaderSize <= |file| {
      HeaderInFile(es, k, file);
      if Size(es[..k + 1]) <= |file| {
        FieldInFile(es, k, file, 12, EntrySize(es[k]));
        PayloadField(es[k]);
      }
    }
  }

  /** How many entries lie wholly within the first n bytes. */
  function WholeCount(es: seq<Entry>, n: nat): (k: nat)
    ensures k <= |es| && Size(es[..k]) <= n
    ensures k < |es| ==> Size(es[..k + 1]) > n
  {
    if Size(es) <= n then assert es[..|es|] == es; |es|
    else
      var k := WholeCount(es[..|es| - 1], n);
      assert es[..|es| - 1][..k] == es[..k];
      assert k < |es| - 1 ==> es[..|es| - 1][..k + 1] == es[..k + 1];
      assert k == |es| - 1 ==> es[..k + 1] == es;
      k
  }

  /** Scanning a file cut at any byte finds exactly the longest run of whole
      entries and stops at the torn one. */
  lemma {:induction false} ScanCut(es: seq<Entry>, k: nat, cut: nat)
    requires AllFit(es) && cut <= Size(es) && k <= WholeCount(es, cut)
    ensures Size(es[..k]) <= cut
    ensures ScanEntries(EncodeEntries(es)[..cut], Size(es[..k])) == es[k..WholeCount(es, cut)]
    decreases |es| - k
  {
    hide EncodeEntries, Size, WholeCount, GetBigEndian, Narrow, ScanEntries, EntryAt;
    var file, m := EncodeEntries(es)[..cut], WholeCount(es, cut);
    SizeMonotone(es, k, m);
    if k < m {
      SizeMonotone(es, k + 1, m);
      EntryInFile(es, k, file);
      SizeStep(es, k);
      ScanStep(file, Size(es[..k]));
      ScanCut(es, k + 1, cut);
      assert es[k..m] == [es[k]] + es[k + 1..m];
    } else {
      if k < |es| { EntryInFile(es, k, file); } else { assert es[..k] == es; }
      ScanStops(file, Size(es[..k]));
    }
  }

  lemma ScanIntact(es: seq<Entry>)
    requires AllFit(es)
    ensures ScanEntries(EncodeEntries(es), 0) == es
  {
    assert es[..0] == [] && es[0..|es|] == es && EncodeEntries(es)[..Size(es)] == EncodeEntries(es);
    ScanCut(es, 0, Size(es));
  }

  /** What was scanned lies inside the file. */
  lemma {:induction false} ScanFits(file: Bytes, pos: nat)
    requires pos <= |file|
    ensures pos + Size(ScanEntries(file, pos)) <= |file|
    decreases |file| - pos
  {
    if WholeEntryAt(file, pos) {
      var e, next := EntryAt(file, pos), pos + EntryHeaderSize + HeaderLength(file, pos);
      ScanFits(file, next);
      SizeConcat([e], ScanEntries(file, next));
    }
  }

  lemma {:induction false} SizeConcat(a: seq<Entry>, b: seq<Entry>)
    ensures Size(a + b) == Size(a) + Size(b)
  {
    if b == [] {
      assert a + b == a;
    } else {
      assert (a + b)[..|a + b| - 1] == a + b[..|b| - 1];
      SizeConcat(a, b[..|b| - 1]);
    }
  }

  // ----- the sparse index -----

  datatype IndexEntry = IndexEntry(relOffset: int, position: int)

  function EncodeIndexEntry(x: IndexEntry): (b: Bytes)
    ensures |b| == IndexEntrySize
  {
    U32(x.relOffset % TwoTo32) + U32(x.position % TwoTo32)
  }

  function EncodeIndex(index: seq<IndexEntry>): (b: Bytes)
    ensures |b| == IndexEntrySize * |index|
  {
    if index == [] then [] else EncodeIndex(index[..|index| - 1]) + EncodeIndexEntry(index[|index| - 1])
  }

  function IndexEntryAt(file: Bytes, pos: nat): IndexEntry
    requires pos + IndexEntrySize <= |file|
  {
    IndexEntry(Signed32(GetBigEndian(file[pos..pos + 4])), Signed32(GetBigEndian(file[pos + 4..pos + 8])))
  }

  function DecodeIndex(file: Bytes): seq<IndexEntry> {
    seq(|file| / IndexEntrySize, j requires 0 <= j < |file| / IndexEntrySize => IndexEntryAt(file, IndexEntrySize * j))
  }

  predicate Int32Index(index: seq<IndexEntry>) {
    forall j :: 0 <= j < |index| ==> IsInt32(index[j].relOffset) && IsInt32(index[j].position)
  }

  lemma IndexEntryRoundTrip(x: IndexEntry)
    requires IsInt32(x.relOffset) && IsInt32(x.position)
    ensures IndexEntryAt(EncodeIndexEntry(x), 0) == x
  {
    var b := EncodeIndexEntry(x);
    assert b[0..4] == U32(x.relOffset % TwoTo32) && b[4..8] == U32(x.position % TwoTo32);
    U32RoundTrip(x.relOffset % TwoTo32);
    U32RoundTrip(x.position % TwoTo32);
    NarrowIdentity(x.relOffset, TwoTo32);
    NarrowIdentity(x.position, TwoTo32);
  }

  lemma {:induction false} IndexEntryInFile(index: seq<IndexEntry>, j: nat)
    requires j < |index| && Int32Index(index)
    ensures IndexEntryAt(EncodeIndex(index), IndexEntrySize * j) == index[j]
  {
    hide EncodeIndexEntry, GetBigEndian, Narrow;
    var n, p := |index| - 1, IndexEntrySize * j;
    var init, last, file := EncodeIndex(index[..n]), EncodeIndexEntry(index[n]), EncodeIndex(index);
    if j < n {
      IndexEntryInFile(index[..n], j);
      assert file[p..p + 4] == init[p..p + 4] && file[p + 4..p + 8] == init[p + 4..p + 8];
    } else {
      IndexEntryRoundTrip(index[n]);
      assert file[p..p + 4] == last[0..4] && file[p + 4..p + 8] == last[4..8];
    }
  }

  /** An index file cut at any byte decodes to its whole entries. */
  lemma DecodeIndexCut(index: seq<IndexEntry>, cut: nat)
    requires Int32Index(index) && cut <= |EncodeIndex(index)|
    ensures DecodeIndex(EncodeIndex(index)[..cut]) == index[..cut / IndexEntrySize]
    ensures EncodeIndex(index)[..cut / IndexEntrySize * IndexEntrySize] == EncodeIndex(index[..cut / IndexEntrySize])
  {
    hide EncodeIndex;
    var n, file := cut / IndexEntrySize, EncodeIndex(index);
    EncodeIndexPrefix(index, n);
    forall j | 0 <= j < n
      ensures DecodeIndex(file[..cut])[j] == index[j]
    {
      IndexEntryInFile(index, j);
      SameEntry(file, cut, IndexEntrySize * j);
    }
  }

  lemma SameEntry(file: Bytes, cut: nat, pos: nat)
    requires pos + IndexEntrySize <= cut <= |file|
    ensures IndexEntryAt(file[..cut], pos) == IndexEntryAt(file, pos)
  {
    hide GetBigEndian, Narrow;
    assert file[..cut][pos..pos + 4] == file[pos..pos + 4];
    assert file[..cut][pos + 4..pos + 8] == file[pos + 4..pos + 8];
  }

  lemma {:induction false} EncodeIndexPrefix(index: seq<IndexEntry>, n: nat)
    requires n <= |index|
    ensures EncodeIndex(index)[..IndexEntrySize * n] == EncodeIndex(index[..n])
  {
    if n < |index| {
      var init := index[..|index| - 1];
      EncodeIndexPrefix(init, n);
      assert init[..n] == index[..n];
      assert EncodeIndex(index)[..IndexEntrySize * n] == EncodeIndex(init)[..IndexEntrySize * n];
    } else {
      assert index[..n] == index;
    }
  }

  function LastPosition(index: seq<IndexEntry>): int {
    if index == [] then 0 else index[|index| - 1].position
  }

  /** The index that appending es one by one builds, with the position of the
      entry it last recorded. */
  datatype Indexed = Indexed(index: seq<IndexEntry>, last: int)

  function BuildIndex(base: int, es: seq<Entry>): Indexed {
    if es == [] then Indexed([], 0)
    else
      var init := es[..|es| - 1];
      var built, pos := BuildIndex(base, init), Size(init);
      if pos - built.last >= IndexIntervalBytes then
        Indexed(built.index + [IndexEntry(Signed32(es[|es| - 1].offset - base), Signed32(pos))], pos)
      else built
  }

  lemma BuildIndexStep(base: int, es: seq<Entry>, e: Entry)
    ensures var built, pos := BuildIndex(base, es), Size(es);
            BuildIndex(base, es + [e]) ==
              if pos - built.last < IndexIntervalBytes then built
              else Indexed(built.index + [IndexEntry(Signed32(e.offset - base), Signed32(pos))], pos)
  {
    assert (es + [e])[..|es|] == es;
  }

  /** es are the entries of a segment starting at base: consecutive offsets, and
      one oversized entry or at most MaxSegmentBytes. */
  predicate SegmentEntries(base: int, es: seq<Entry>) {
    && AllFit(es)
    && (forall k :: 0 <= k < |es| ==> es[k].offset == base + k)
    && (|es| <= 1 || Size(es) <= MaxSegmentBytes)
  }

  /** Every index entry names a real entry boundary with that offset, in
      strictly increasing order. */
  predicate ValidIndex(index: seq<IndexEntry>, es: seq<Entry>) {
    && (forall j :: 0 <= j < |index| ==> NamesBoundary(index[j], es))
    && (forall i, j :: 0 <= i < j < |index| ==> index[i].relOffset < index[j].relOffset)
  }

  predicate NamesBoundary(x: IndexEntry, es: seq<Entry>) {
    0 <= x.relOffset < |es| && x.position == Size(es[..x.relOffset])
  }

  /** Boundaries of a segment are small: no int32 narrowing loses anything. */
  lemma BoundaryBound(base: int, es: seq<Entry>, k: nat)
    requires SegmentEntries(base, es) && k < |es|
    ensures EntryHeaderSize * k <= Size(es[..k]) < MaxSegmentBytes
    ensures Signed32(k) == k && Signed32(Size(es[..k])) == Size(es[..k])
  {
    hide Narrow, EntryFits, EntrySize;
    assert es[..0] == [];
    SizeMonotone(es, 0, k);
    SizeStep(es, k);
    SizeMonotone(es, k + 1, k + 1);
    NarrowIdentity(k, TwoTo32);
    NarrowIdentity(Size(es[..k]), TwoTo32);
  }

  lemma ValidIndexBound(base: int, index: seq<IndexEntry>, es: seq<Entry>)
    requires SegmentEntries(base, es) && ValidIndex(index, es)
    ensures forall j :: 0 <= j < |index| ==>
              0 <= index[j].relOffset < MaxSegmentBytes && 0 <= index[j].position < MaxSegmentBytes
    ensures Int32Index(index)
    ensures forall i, j :: 0 <= i < j < |index| ==> index[i].position < index[j].position
  {
    forall j | 0 <= j < |index|
      ensures 0 <= index[j].relOffset < MaxSegmentBytes && 0 <= index[j].position < MaxSegmentBytes
    {
      assert NamesBoundary(index[j], es);
      BoundaryBound(base, es, index[j].relOffset);
    }
    forall i, j | 0 <= i < j < |index|
      ensures index[i].position < index[j].position
    {
      assert NamesBoundary(index[i], es) && NamesBoundary(index[j], es);
      SizeMonotone(es, index[i].relOffset, index[j].relOffset);
    }
  }

  /** A valid index stays valid as the segment grows. */
  lemma ValidIndexGrows(index: seq<IndexEntry>, es: seq<Entry>, more: seq<Entry>)
    requires ValidIndex(index, es)
    ensures ValidIndex(index, es + more)
  {
    forall j | 0 <= j < |index|
      ensures NamesBoundary(index[j], es + more)
    {
      assert NamesBoundary(index[j], es);
      assert (es + more)[..index[j].relOffset] == es[..index[j].relOffset];
    }
  }

  /** The index of a prefix is the part of the index that points into it. */
  lemma {:induction false} BuildIndexPrefix(base: int, es: seq<Entry>, k: nat)
    requires SegmentEntries(base, es) && k <= |es|
    ensures var part, all := BuildIndex(base, es[..k]).index, BuildIndex(base, es).index;
            && part <= all
            && (|part| < |all| ==> all[|part|].position >= Size(es[..k]))
  {
    hide Size, Narrow;
    if k == |es| {
      assert es[..k] == es;
    } else {
      var n := |es| - 1;
      var init := es[..n];
      SizeStep(es, n);
      assert es[..n + 1] == es && init[..k] == es[..k];
      BuildIndexPrefix(base, init, k);
      SizeMonotone(es, k, n);
      BoundaryBound(base, es, n);
      var all := BuildIndex(base, es).index;
      assert BuildIndex(base, init).index == all ||
             all == BuildIndex(base, init).index + [IndexEntry(Signed32(es[n].offset - base), Size(init))];
    }
  }

  /** What appends build is a valid index, and its last entry is where the
      source's lastIndexPos stands. */
  lemma {:induction false} BuildIndexValid(base: int, es: seq<Entry>)
    requires SegmentEntries(base, es)
    ensures ValidIndex(BuildIndex(base, es).index, es)
    ensures BuildIndex(base, es).last == LastPosition(BuildIndex(base, es).index)
  {
    hide Signed32, Size, BuildIndex, SegmentEntries, ValidIndex;
    if es == [] { NoIndex(base); }
    else {
      var n := |es| - 1;
      var init := es[..n];
      assert init + [es[n]] == es;
      InitEntries(base, es);
      BuildIndexValid(base, init);
      BuildIndexStep(base, init, es[n]);
      BoundaryBound(base, es, n);
      var index := BuildIndex(base, init).index;
      ValidIndexGrows(index, init, [es[n]]);
      NameNext(index, es, n);
    }
  }

  lemma NoIndex(base: int)
    ensures BuildIndex(base, []) == Indexed([], 0) && ValidIndex([], [])
  {}

  lemma InitEntries(base: int, es: seq<Entry>)
    requires SegmentEntries(base, es) && es != []
    ensures SegmentEntries(base, es[..|es| - 1]) && es[|es| - 1].offset == base + |es| - 1
  {
    hide Size, EntryFits;
    var n := |es| - 1;
    SizeMonotone(es, n, |es|);
    assert es[..|es|] == es;
  }

  /** An index over the first n entries may go on with entry n. */
  lemma NameNext(index: seq<IndexEntry>, es: seq<Entry>, n: nat)
    requires n < |es| && ValidIndex(index, es[..n])
    ensures ValidIndex(index + [IndexEntry(n, Size(es[..n]))], es)
  {
    hide Size;
    var x := IndexEntry(n, Size(es[..n]));
    assert es[..n] + es[n..] == es;
    ValidIndexGrows(index, es[..n], es[n..]);
    assert NamesBoundary(x, es);
    forall j | 0 <= j < |index| ensures index[j].relOffset < n { assert NamesBoundary(index[j], es[..n]); }
  }

  // ----- how far the index lets a scan start from an entry -----

  /** The position that the index gives for entry k: that of the last index entry at
      or before it, or the start. */
  function Before(index: seq<IndexEntry>, k: int): int {
    if index == [] then 0
    else if index[|index| - 1].relOffset <= k then index[|index| - 1].position
    else Before(index[..|index| - 1], k)
  }

  /** The index that appends build, or a rebuild, leaves less than one interval
      between any entry and the position it gives for it. */
  lemma {:induction false} IndexIsDense(base: int, es: seq<Entry>, k: nat)
    requires SegmentEntries(base, es) && k < |es|
    ensures 0 <= Size(es[..k]) - Before(BuildIndex(base, es).index, k) < IndexIntervalBytes
  {
    hide Signed32, Size, BuildIndex, SegmentEntries, ValidIndex;
    var n := |es| - 1;
    var init := es[..n];
    assert init + [es[n]] == es;
    InitEntries(base, es);
    BuildIndexStep(base, init, es[n]);
    BoundaryBound(base, es, n);
    var before, after := BuildIndex(base, init), BuildIndex(base, es);
    BuildIndexValid(base, init);
    BeforeEnd(before.index, init, n);
    if after != before { BeforeGrows(before.index, IndexEntry(n, Size(init)), k); }
    if k < n {
      IndexIsDense(base, init, k);
      assert init[..k] == es[..k];
    } else {
      assert es[..k] == init;
      BuildIndexLast(base, init);
    }
  }

  lemma BeforeEnd(index: seq<IndexEntry>, es: seq<Entry>, n: nat)
    requires ValidIndex(index, es) && |es| <= n
    ensures Before(index, n) == LastPosition(index)
  {
    if index != [] { assert NamesBoundary(index[|index| - 1], es); }
  }

  lemma BeforeGrows(index: seq<IndexEntry>, x: IndexEntry, k: int)
    ensures Before(index + [x], k) == if x.relOffset <= k then x.position else Before(index, k)
  {
    assert (index + [x])[..|index|] == index;
  }

  /** No entry that was indexed lies beyond the end. */
  lemma {:induction false} BuildIndexLast(base: int, es: seq<Entry>)
    ensures 0 <= BuildIndex(base, es).last <= Size(es)
  {
    if es != [] { BuildIndexLast(base, es[..|es| - 1]); }
  }

  /** ... and index entries lie at least one interval apart. */
  lemma {:induction false} IndexIsSparse(base: int, es: seq<Entry>, j: nat)
    requires SegmentEntries(base, es) && j < |BuildIndex(base, es).index|
    ensures var index := BuildIndex(base, es).index;
            index[j].position - LastPosition(index[..j]) >= IndexIntervalBytes
  {
    hide Signed32, Size, SegmentEntries, ValidIndex, BuildIndex;
    var n := |es| - 1;
    if es == [] { NoIndex(base); }
    else {
      var init := es[..n];
      assert init + [es[n]] == es;
      InitEntries(base, es);
      BuildIndexStep(base, init, es[n]);
      BoundaryBound(base, es, n);
      BuildIndexValid(base, init);
      var before := BuildIndex(base, init).index;
      if j < |before| {
        IndexIsSparse(base, init, j);
        assert BuildIndex(base, es).index[..j] == before[..j];
      } else { assert BuildIndex(base, es).index[..j] == before; }
    }
  }

  /** A binary search for the entries at or before k finds that position. */
  lemma {:induction false} BeforeIs(index: seq<IndexEntry>, k: int, j: nat)
    requires j <= |index|
    requires forall a :: 0 <= a < j ==> index[a].relOffset <= k
    requires forall a :: j <= a < |index| ==> index[a].relOffset > k
    ensures Before(index, k) == if j == 0 then 0 else index[j - 1].position
  {
    if index != [] && j < |index| { BeforeIs(index[..|index| - 1], k, j); }
  }
}
