/**
 The v2 RecordBatch of KIP-98: building one batch, decoding a concatenation of
 batches, and splitting it by the batch length field alone.
 */
module RecordBatch {
  import opened Wire

  const HeaderSize := 61
  const BaseTimestamp := 1700000000000

  /** A missing key is the null key, which is not the empty key. */
  datatype BatchRecord = BatchRecord(key: Option<Bytes>, value: Bytes)

  datatype DecodedRecord = DecodedRecord(offset: int, key: Option<Bytes>, value: Option<Bytes>, timestamp: int)

  // ----- one record -----

  function KeyField(key: Option<Bytes>): Bytes {
    match key
    case None => Varint(-1)
    case Some(k) => Varint(Signed32(|k|)) + k
  }

  function RecordBody(r: BatchRecord, delta: int): Bytes {
    Int8Bytes(0) + (Varint(0) + (Varint(Signed32(delta)) + (KeyField(r.key) +
      (Varint(Signed32(|r.value|)) + (r.value + Varint(0))))))
  }

  function EncodeRecord(r: BatchRecord, delta: int): (b: Bytes)
    ensures |b| > |RecordBody(r, delta)|
  {
    var body := RecordBody(r, delta);
    Varint(Signed32(|body|)) + body
  }

  /** A varint length, then that many bytes; a negative length is nil. */
  function TakeVarintBytes(s: Bytes): Parsed<Option<Bytes>> {
    var (n, rest) :- TakeVarint(s);
    if n < 0 then Ok(None, rest)
    else
      var (b, rest') :- Take(rest, n);
      Ok(Some(b), rest')
  }

  /** The lengths and deltas in front of a record's key. */
  function TakeFront(s: Bytes): Parsed<(int, int)> {
    var (_, s) :- TakeVarint(s);
    var (_, s) :- TakeInt8(s);
    var (timestampDelta, s) :- TakeVarint(s);
    var (offsetDelta, s) :- TakeVarint(s);
    Ok((timestampDelta, offsetDelta), s)
  }

  function TakeRecord(s: Bytes, baseOffset: int, baseTimestamp: int): Parsed<DecodedRecord> {
    var ((timestampDelta, offsetDelta), s) :- TakeFront(s);
    var (key, s) :- TakeVarintBytes(s);
    var (value, s) :- TakeVarintBytes(s);
    var (_, s) :- TakeVarint(s);
    Ok(DecodedRecord(Signed64(baseOffset + offsetDelta), key, value, Signed64(baseTimestamp + timestampDelta)), s)
  }

  lemma BytesFieldRoundTrip(b: Bytes, rest: Bytes)
    requires |b| < TwoTo31
    ensures TakeVarintBytes(Varint(Signed32(|b|)) + (b + rest)) == Ok(Some(b), rest)
  {
    hide Varint, TakeVarint;
    NarrowIdentity(|b|, TwoTo32);
    VarintRoundTrip(|b|, b + rest);
    assert (b + rest)[..|b|] == b && (b + rest)[|b|..] == rest;
  }

  /** A null key reads back as null and an empty key as empty. */
  lemma KeyRoundTrip(key: Option<Bytes>, rest: Bytes)
    requires key.Some? ==> |key.value| < TwoTo31
    ensures TakeVarintBytes(KeyField(key) + rest) == Ok(key, rest)
  {
    hide Varint, TakeVarint;
    match key
    case None => VarintRoundTrip(-1, rest);
    case Some(k) =>
      BytesFieldRoundTrip(k, rest);
      assert KeyField(key) + rest == Varint(Signed32(|k|)) + (k + rest);
  }

  lemma Regroup(a: Bytes, b: Bytes, rest: Bytes)
    ensures (a + b) + rest == a + (b + rest)
  {}

  lemma RecordRoundTrip(r: BatchRecord, delta: int, baseOffset: int, rest: Bytes)
    requires |RecordBody(r, delta)| < TwoTo31 && 0 <= delta < TwoTo31
    ensures TakeRecord(EncodeRecord(r, delta) + rest, baseOffset, BaseTimestamp)
         == Ok(DecodedRecord(Signed64(baseOffset + delta), r.key, Some(r.value), BaseTimestamp), rest)
  {
    hide Varint, TakeVarint, TakeVarintBytes, KeyField, TakeInt8, Int8Bytes, Narrow;
    var s6 := Varint(0) + rest;
    var s5 := Varint(Signed32(|r.value|)) + (r.value + s6);
    var s4 := KeyField(r.key) + s5;
    var s3 := Varint(Signed32(delta)) + s4;
    var s2 := Varint(0) + s3;
    var s1 := Int8Bytes(0) + s2;
    var body := RecordBody(r, delta);
    assert body + rest == s1 by { Nested(r, delta, rest); }
    Regroup(Varint(Signed32(|body|)), body, rest);
    NarrowIdentity(|body|, TwoTo32);
    NarrowIdentity(delta, TwoTo32);
    NarrowIdentity(BaseTimestamp, TwoTo64);
    VarintRoundTrip(|body|, s1);
    Int8RoundTrip(0, s2);
    NarrowIdentity(0, 256);
    VarintRoundTrip(0, s3);
    VarintRoundTrip(delta, s4);
    FieldsFit(r, delta);
    KeyRoundTrip(r.key, s5);
    BytesFieldRoundTrip(r.value, s6);
    VarintRoundTrip(0, rest);
  }

  lemma FieldsFit(r: BatchRecord, delta: int)
    ensures |r.value| <= |RecordBody(r, delta)|
    ensures r.key.Some? ==> |r.key.value| <= |RecordBody(r, delta)|
  {
    hide Varint;
  }

  lemma Nested(r: BatchRecord, delta: int, rest: Bytes)
    ensures RecordBody(r, delta) + rest ==
            Int8Bytes(0) + (Varint(0) + (Varint(Signed32(delta)) + (KeyField(r.key) +
              (Varint(Signed32(|r.value|)) + (r.value + (Varint(0) + rest))))))
  {
    hide Varint, KeyField, Int8Bytes, Narrow;
  }

  // ----- one batch -----

  function Numbered(records: seq<BatchRecord>): (ps: seq<(BatchRecord, int)>)
    ensures |ps| == |records|
  {
    seq(|records|, i requires 0 <= i < |records| => (records[i], i))
  }

  function WriteRecord(): ((BatchRecord, int)) -> Bytes {
    (p: (BatchRecord, int)) => EncodeRecord(p.0, p.1)
  }

  function ReadRecord(baseOffset: int, baseTimestamp: int): Bytes -> Parsed<DecodedRecord> {
    s => TakeRecord(s, baseOffset, baseTimestamp)
  }

  function Body(records: seq<BatchRecord>): Bytes {
    Items(WriteRecord(), Numbered(records))
  }

  /** Bytes 21 onward, which the checksum covers: attributes, last offset delta,
      base and max timestamp, producer id, epoch and base sequence of -1, and
      the record count. */
  function Checked(records: seq<BatchRecord>): Bytes {
    CheckedHeader(|records|) + Body(records)
  }

  function CheckedHeader(n: nat): (b: Bytes)
    ensures |b| == 40
  {
    U16(0) + U32((n - 1) % TwoTo32) + U64(BaseTimestamp) + U64(BaseTimestamp) +
    U64(TwoTo64 - 1) + U16(TwoTo16 - 1) + U32(TwoTo32 - 1) + U32(n % TwoTo32)
  }

  /** A batch with base offset `offset`: offset, length of the rest, leader
      epoch -1, magic 2, checksum of the rest, the rest. */
  function BatchBytes(offset: int, records: seq<BatchRecord>, crc: Bytes -> nat): (b: Bytes)
    ensures |b| == HeaderSize + |Body(records)|
  {
    var checked := Checked(records);
    U64(offset % TwoTo64) +
      (U32((|checked| + 9) % TwoTo32) + (U32(TwoTo32 - 1) + [2] + U32(crc(checked) % TwoTo32) + checked))
  }

  /** Total length as the length field tells it. */
  function TotalLength(b: Bytes): nat
    requires |b| >= 12
  {
    12 + GetBigEndian(b[8..12])
  }

  function DecodeOneBatch(batch: Bytes): Option<seq<DecodedRecord>> {
    if |batch| < HeaderSize || batch[16] != 2 then None
    else
      var baseOffset := Signed64(GetBigEndian(batch[0..8]));
      var baseTimestamp := Signed64(GetBigEndian(batch[27..35]));
      var recordCount := Signed32(GetBigEndian(batch[57..61]));
      if recordCount < 0 then None
      else
        var parsed := TakeItems(ReadRecord(baseOffset, baseTimestamp), recordCount, batch[HeaderSize..]);
        if parsed.Ok? then Some(parsed.value) else None
  }

  /** What the records of a batch at `offset` decode to. */
  function Resolved(offset: int, records: seq<BatchRecord>): (ds: seq<DecodedRecord>)
    ensures |ds| == |records|
  {
    seq(|records|, i requires 0 <= i < |records| =>
      DecodedRecord(Signed64(offset + i), records[i].key, Some(records[i].value), BaseTimestamp))
  }

  predicate BatchFits(records: seq<BatchRecord>) {
    HeaderSize + |Body(records)| < TwoTo31
  }

  lemma {:induction false} BodyBounds(ps: seq<(BatchRecord, int)>)
    ensures |ps| <= |Items(WriteRecord(), ps)|
    ensures forall i :: 0 <= i < |ps| ==> |RecordBody(ps[i].0, ps[i].1)| <= |Items(WriteRecord(), ps)|
  {
    hide RecordBody, EncodeRecord;
    if ps != [] { BodyBounds(ps[..|ps| - 1]); }
  }

  lemma RecordReads(offset: int, r: BatchRecord, delta: int)
    requires |RecordBody(r, delta)| < TwoTo31 && 0 <= delta < TwoTo31
    ensures Reads(WriteRecord(), ReadRecord(offset, BaseTimestamp), (r, delta),
                  DecodedRecord(Signed64(offset + delta), r.key, Some(r.value), BaseTimestamp))
  {
    hide RecordBody, TakeRecord, EncodeRecord, Narrow;
    forall rest { RecordRoundTrip(r, delta, offset, rest); }
  }

  lemma RecordFits(records: seq<BatchRecord>, i: nat)
    requires BatchFits(records) && i < |records|
    ensures |RecordBody(records[i], i)| < TwoTo31 && i < TwoTo31
  {
    hide RecordBody, Items, WriteRecord;
    BodyBounds(Numbered(records));
    assert Numbered(records)[i] == (records[i], i);
  }

  lemma RecordReadsBack(offset: int, records: seq<BatchRecord>, i: nat)
    requires BatchFits(records) && i < |records|
    ensures Reads(WriteRecord(), ReadRecord(offset, BaseTimestamp), Numbered(records)[i], Resolved(offset, records)[i])
  {
    hide RecordBody, Reads, BatchFits, WriteRecord, ReadRecord, Signed64;
    RecordFits(records, i);
    RecordReads(offset, records[i], i);
  }

  lemma BodyRoundTrip(offset: int, records: seq<BatchRecord>)
    requires BatchFits(records)
    ensures TakeItems(ReadRecord(offset, BaseTimestamp), |records|, Body(records)) == Ok(Resolved(offset, records), [])
  {
    hide Reads, Items, TakeItems, WriteRecord, ReadRecord, Numbered, Resolved, BatchFits;
    var ps, ds := Numbered(records), Resolved(offset, records);
    forall i | 0 <= i < |records|
      ensures Reads(WriteRecord(), ReadRecord(offset, BaseTimestamp), ps[i], ds[i])
    {
      RecordReadsBack(offset, records, i);
    }
    ItemsRoundTrip(WriteRecord(), ReadRecord(offset, BaseTimestamp), ps, ds, []);
    assert Body(records) + [] == Body(records);
  }

  lemma HeaderFields(offset: int, records: seq<BatchRecord>, crc: Bytes -> nat)
    requires BatchFits(records)
    ensures var b := BatchBytes(offset, records, crc);
            && b[0..8] == U64(offset % TwoTo64)
            && b[8..12] == U32(|b| - 12)
            && b[16] == 2
            && b[27..35] == U64(BaseTimestamp)
            && b[57..61] == U32(|records| % TwoTo32)
            && b[HeaderSize..] == Body(records)
  {
    hide U64, U32, U16, Body;
    var n, b, checked := |records|, BatchBytes(offset, records, crc), Checked(records);
    assert b[21..] == checked;
    assert checked[..40] == CheckedHeader(n) && checked[40..] == Body(records);
    assert CheckedHeader(n)[6..14] == U64(BaseTimestamp) && CheckedHeader(n)[36..40] == U32(n % TwoTo32);
    assert b[27..35] == checked[6..14] && b[57..61] == checked[36..40];
  }

  /** A built batch, stamped with any offset, decodes to its records in order
      with absolute offsets, null and empty keys kept apart. */
  lemma BatchRoundTrip(offset: int, records: seq<BatchRecord>, crc: Bytes -> nat)
    requires BatchFits(records) && IsInt64(offset)
    ensures DecodeOneBatch(BatchBytes(offset, records, crc)) == Some(Resolved(offset, records))
  {
    hide U64, U32, Body, BatchBytes, TakeItems, Resolved, GetBigEndian, Narrow;
    HeaderFields(offset, records, crc);
    HeaderReads(offset, records, crc);
    BodyRoundTrip(offset, records);
  }

  lemma BodyCount(records: seq<BatchRecord>)
    ensures |records| <= |Body(records)|
  {
    BodyBounds(Numbered(records));
  }

  // ----- batches that end early -----

  lemma VarintBytesCut(s: Bytes, k: nat)
    requires k <= |s|
    ensures Cut(s, TakeVarintBytes(s), k, TakeVarintBytes(s[..k]))
  {
    hide TakeVarint, Take, Cut;
    VarintCut(s, k);
    var n, n' := TakeVarint(s), TakeVarint(s[..k]);
    if n.Err? { CutFails(s, TakeVarintBytes(s), k, TakeVarintBytes(s[..k])); return; }
    SameValue(s, n, k, n');
    if n.value < 0 { CutAs<int, Option<Bytes>>(s, n, k, n', None); return; }
    CutBound(s, n, k, n');
    var j := Left(s, n.rest, k);
    TakeCut(n.rest, n.value, j);
    var b := Take(n.rest, n.value);
    CutThen(s, n, k, n', b, Take(n.rest[..j], n.value));
    if b.Err? { CutFails(s, TakeVarintBytes(s), k, TakeVarintBytes(s[..k])); return; }
    var b' := if n'.Err? then Err else Take(n'.rest, n'.value);
    SameValue(s, b, k, b');
    CutAs(s, b, k, b', Some(b.value));
  }

  lemma FrontCut(s: Bytes, k: nat)
    requires k <= |s|
    ensures Cut(s, TakeFront(s), k, TakeFront(s[..k]))
  {
    hide TakeVarint, TakeInt8, Cut;
    VarintCut(s, k);
    var a, a' := TakeVarint(s), TakeVarint(s[..k]);
    if a.Err? { CutFails(s, TakeFront(s), k, TakeFront(s[..k])); return; }
    CutBound(s, a, k, a');
    IntCut(a.rest, Left(s, a.rest, k));
    var b := TakeInt8(a.rest);
    CutThen(s, a, k, a', b, TakeInt8(a.rest[..Left(s, a.rest, k)]));
    var b' := if a'.Err? then Err else TakeInt8(a'.rest);
    if b.Err? { CutFails(s, TakeFront(s), k, TakeFront(s[..k])); return; }
    CutBound(s, b, k, b');
    VarintCut(b.rest, Left(s, b.rest, k));
    var c := TakeVarint(b.rest);
    CutThen(s, b, k, b', c, TakeVarint(b.rest[..Left(s, b.rest, k)]));
    var c' := if b'.Err? then Err else TakeVarint(b'.rest);
    if c.Err? { CutFails(s, TakeFront(s), k, TakeFront(s[..k])); return; }
    CutBound(s, c, k, c');
    SameValue(s, c, k, c');
    VarintCut(c.rest, Left(s, c.rest, k));
    var d := TakeVarint(c.rest);
    CutThen(s, c, k, c', d, TakeVarint(c.rest[..Left(s, c.rest, k)]));
    var d' := if c'.Err? then Err else TakeVarint(c'.rest);
    if d.Err? { CutFails(s, TakeFront(s), k, TakeFront(s[..k])); return; }
    SameValue(s, d, k, d');
    CutAs(s, d, k, d', (c.value, d.value));
  }

  lemma TakeRecordCut(s: Bytes, k: nat, baseOffset: int, baseTimestamp: int)
    requires k <= |s|
    ensures Cut(s, TakeRecord(s, baseOffset, baseTimestamp), k, TakeRecord(s[..k], baseOffset, baseTimestamp))
  {
    hide TakeVarint, TakeInt8, TakeVarintBytes, Signed64, Cut;
    var r, r' := TakeRecord(s, baseOffset, baseTimestamp), TakeRecord(s[..k], baseOffset, baseTimestamp);
    FrontCut(s, k);
    var a, a' := TakeFront(s), TakeFront(s[..k]);
    if a.Err? { CutFails(s, r, k, r'); return; }
    CutBound(s, a, k, a');
    SameValue(s, a, k, a');
    VarintBytesCut(a.rest, Left(s, a.rest, k));
    var b := TakeVarintBytes(a.rest);
    CutThen(s, a, k, a', b, TakeVarintBytes(a.rest[..Left(s, a.rest, k)]));
    var b' := if a'.Err? then Err else TakeVarintBytes(a'.rest);
    if b.Err? { CutFails(s, r, k, r'); return; }
    CutBound(s, b, k, b');
    SameValue(s, b, k, b');
    VarintBytesCut(b.rest, Left(s, b.rest, k));
    var c := TakeVarintBytes(b.rest);
    CutThen(s, b, k, b', c, TakeVarintBytes(b.rest[..Left(s, b.rest, k)]));
    var c' := if b'.Err? then Err else TakeVarintBytes(b'.rest);
    if c.Err? { CutFails(s, r, k, r'); return; }
    CutBound(s, c, k, c');
    SameValue(s, c, k, c');
    VarintCut(c.rest, Left(s, c.rest, k));
    var d := TakeVarint(c.rest);
    CutThen(s, c, k, c', d, TakeVarint(c.rest[..Left(s, c.rest, k)]));
    if d.Err? { CutFails(s, r, k, r'); return; }
    CutAs(s, d, k, if c'.Err? then Err else TakeVarint(c'.rest), r.value);
  }

  /** A built batch that is cut anywhere does not decode, nor does one of another format. */
  lemma BatchCut(b: Bytes, offset: int, records: seq<BatchRecord>, crc: Bytes -> nat, k: nat, format: int)
    requires BatchFits(records) && IsInt64(offset) && b == BatchBytes(offset, records, crc)
    requires k < |b| && 0 <= format < 256 && format != 2
    ensures DecodeOneBatch(b[..k]) == None && DecodeOneBatch(b[16 := format]) == None
  {
    hide U64, U32, Body, BatchBytes, TakeItems, Resolved, ReadRecord, GetBigEndian, Narrow, BatchFits;
    if k >= HeaderSize {
      HeaderReads(offset, records, crc);
      assert b[..k][0..8] == b[0..8] && b[..k][27..35] == b[27..35] && b[..k][57..61] == b[57..61];
      var body, j := b[HeaderSize..], k - HeaderSize;
      assert b[..k][HeaderSize..] == body[..j];
      BodyRoundTrip(offset, records);
      RecordsCutShort(offset, BaseTimestamp);
      ItemsCut(ReadRecord(offset, BaseTimestamp), |records|, body, j);
    }
  }

  lemma RecordsCutShort(baseOffset: int, baseTimestamp: int)
    ensures CutsShort(ReadRecord(baseOffset, baseTimestamp))
  {
    hide TakeRecord, Cut;
    forall s, k | 0 <= k <= |s| { TakeRecordCut(s, k, baseOffset, baseTimestamp); }
  }

  lemma HeaderReads(offset: int, records: seq<BatchRecord>, crc: Bytes -> nat)
    requires BatchFits(records) && IsInt64(offset)
    ensures var b := BatchBytes(offset, records, crc);
            && |b| == HeaderSize + |Body(records)| && b[HeaderSize..] == Body(records)
            && Signed64(GetBigEndian(b[0..8])) == offset && Signed64(GetBigEndian(b[27..35])) == BaseTimestamp
            && Signed32(GetBigEndian(b[57..61])) == |records|
  {
    hide U64, U32, Body, BatchBytes, GetBigEndian, Narrow;
    HeaderFields(offset, records, crc);
    U64RoundTrip(offset % TwoTo64);
    NarrowMod(offset, TwoTo64);
    NarrowIdentity(offset, TwoTo64);
    U64RoundTrip(BaseTimestamp);
    NarrowIdentity(BaseTimestamp, TwoTo64);
    BodyCount(records);
    U32RoundTrip(|records|);
    NarrowIdentity(|records|, TwoTo32);
  }

  // ----- a concatenation of batches -----

  function Join(bs: seq<Bytes>): Bytes {
    if bs == [] then [] else bs[0] + Join(bs[1..])
  }

  /** Walks by the length field until less than a batch is left. */
  function Split(b: Bytes): seq<Bytes> {
    if |b| < 12 || TotalLength(b) > |b| then [] else [b[..TotalLength(b)]] + Split(b[TotalLength(b)..])
  }

  function DecodeBatches(raw: Bytes): Option<seq<DecodedRecord>> {
    if |raw| < 12 || TotalLength(raw) < HeaderSize || TotalLength(raw) > |raw| then Some([])
    else
      var first := DecodeOneBatch(raw[..TotalLength(raw)]);
      if first.None? then None
      else
        var others := DecodeBatches(raw[TotalLength(raw)..]);
        if others.None? then None else Some(first.value + others.value)
  }

  /** The length field of a batch tells its own length. */
  predicate Honest(b: Bytes) {
    |b| >= 12 && TotalLength(b) == |b|
  }

  /** Less than one whole batch: the end of a fetch that was cut. */
  predicate Torn(t: Bytes) {
    |t| < 12 || TotalLength(t) > |t|
  }

  lemma HonestFirst(b: Bytes, tail: Bytes)
    requires |b| >= 12
    ensures TotalLength(b + tail) == TotalLength(b)
  {
    assert (b + tail)[8..12] == b[8..12];
  }

  /** A proper prefix of an honest batch is torn. */
  lemma CutIsTorn(b: Bytes, n: nat)
    requires Honest(b) && n < |b|
    ensures Torn(b[..n])
  {
    if n >= 12 { assert b[..n][8..12] == b[8..12]; }
  }

  /** Splitting gives the original batches back, and drops a torn last one,
      exactly when every batch is honest about its length. */
  lemma SplitJoin(bs: seq<Bytes>, torn: Bytes)
    requires Torn(torn)
    ensures Split(Join(bs) + torn) == bs <==> forall b :: b in bs ==> Honest(b)
  {
    if forall b :: b in bs ==> Honest(b) {
      SplitHonest(bs, torn);
    } else if Split(Join(bs) + torn) == bs {
      SplitIsHonest(Join(bs) + torn);
    }
  }

  lemma {:induction false} JoinSplits(bs: seq<Bytes>, k: nat)
    requires k <= |bs|
    ensures Join(bs) == Join(bs[..k]) + Join(bs[k..])
  {
    if k == 0 {
      assert bs[..0] == [] && bs[0..] == bs;
    } else {
      JoinSplits(bs[1..], k - 1);
      assert bs[1..][..k - 1] == bs[..k][1..] && bs[1..][k - 1..] == bs[k..];
    }
  }

  lemma SplitFirst(b: Bytes, rest: Bytes)
    requires Honest(b)
    ensures Split(b + rest) == [b] + Split(rest)
  {
    hide GetBigEndian;
    HonestFirst(b, rest);
    assert (b + rest)[..|b|] == b && (b + rest)[|b|..] == rest;
  }

  /** Batches with a true length field are split off, whatever follows them. */
  lemma {:induction false} SplitHonestThen(bs: seq<Bytes>, rest: Bytes)
    requires forall b :: b in bs ==> Honest(b)
    ensures Split(Join(bs) + rest) == bs + Split(rest)
  {
    hide Honest, Split;
    if bs == [] {
      assert Join(bs) + rest == rest;
    } else {
      var more := Join(bs[1..]) + rest;
      assert bs[0] in bs && Join(bs) + rest == bs[0] + more;
      SplitFirst(bs[0], more);
      SplitHonestThen(bs[1..], rest);
    }
  }

  lemma SplitHonest(bs: seq<Bytes>, torn: Bytes)
    requires Torn(torn) && forall b :: b in bs ==> Honest(b)
    ensures Split(Join(bs) + torn) == bs
  {
    hide Honest, Join;
    SplitHonestThen(bs, torn);
    assert Split(torn) == [] && bs + [] == bs;
  }

  lemma {:induction false} SplitIsHonest(b: Bytes)
    ensures forall x :: x in Split(b) ==> Honest(x)
    decreases |b|
  {
    hide GetBigEndian;
    if |b| >= 12 && TotalLength(b) <= |b| {
      var x := b[..TotalLength(b)];
      assert x[8..12] == b[8..12];
      SplitIsHonest(b[TotalLength(b)..]);
    }
  }

  /** Writes the base offset into the first eight bytes, as an append does. */
  function Stamp(batch: Bytes, offset: int): (r: Bytes)
    requires |batch| >= 8
    ensures |r| == |batch|
  {
    U64(offset % TwoTo64) + batch[8..]
  }

  /** Stamping changes the base offset and nothing that the length field or the
      checksum speaks of. */
  lemma StampKeeps(batch: Bytes, offset: int)
    requires |batch| >= 12
    ensures Honest(Stamp(batch, offset)) <==> Honest(batch)
    ensures Stamp(batch, offset)[8..] == batch[8..]
  {
    hide GetBigEndian, U64;
    assert Stamp(batch, offset)[8..12] == batch[8..12];
  }

  lemma StampBuilt(offset: int, records: seq<BatchRecord>, crc: Bytes -> nat)
    ensures Stamp(BatchBytes(0, records, crc), offset) == BatchBytes(offset, records, crc)
  {
    hide U64, U32, Checked;
  }

  /** A batch as it was built and then stamped with its offset. */
  datatype Built = Built(offset: int, records: seq<BatchRecord>)

  function BuiltBytes(xs: seq<Built>, crc: Bytes -> nat): (bs: seq<Bytes>)
    ensures |bs| == |xs|
  {
    seq(|xs|, i requires 0 <= i < |xs| => BatchBytes(xs[i].offset, xs[i].records, crc))
  }

  function AllResolved(xs: seq<Built>): seq<DecodedRecord> {
    if xs == [] then [] else Resolved(xs[0].offset, xs[0].records) + AllResolved(xs[1..])
  }

  lemma BuiltIsHonest(x: Built, crc: Bytes -> nat)
    requires BatchFits(x.records)
    ensures Honest(BatchBytes(x.offset, x.records, crc))
  {
    hide BatchBytes, GetBigEndian, U32, Body;
    HeaderFields(x.offset, x.records, crc);
    U32RoundTrip(|BatchBytes(x.offset, x.records, crc)| - 12);
  }

  lemma DecodeFirst(b: Bytes, rest: Bytes, first: seq<DecodedRecord>, others: seq<DecodedRecord>)
    requires Honest(b) && |b| >= HeaderSize
    requires DecodeOneBatch(b) == Some(first) && DecodeBatches(rest) == Some(others)
    ensures DecodeBatches(b + rest) == Some(first + others)
  {
    hide GetBigEndian, DecodeOneBatch;
    HonestFirst(b, rest);
    assert (b + rest)[..|b|] == b && (b + rest)[|b|..] == rest;
  }

  lemma JoinFirst(xs: seq<Built>, crc: Bytes -> nat, torn: Bytes)
    requires xs != []
    ensures Join(BuiltBytes(xs, crc)) + torn ==
            BatchBytes(xs[0].offset, xs[0].records, crc) + (Join(BuiltBytes(xs[1..], crc)) + torn)
  {
    hide BatchBytes;
    assert BuiltBytes(xs, crc)[1..] == BuiltBytes(xs[1..], crc);
  }

  lemma DecodeTorn(torn: Bytes)
    requires Torn(torn)
    ensures DecodeBatches(torn) == Some([])
  {}

  /** Decoding any concatenation of built and stamped batches, with or without a
      torn one at the end, yields every record in order at its absolute offset. */
  lemma {:induction false} DecodeJoin(xs: seq<Built>, crc: Bytes -> nat, torn: Bytes)
    requires forall i :: 0 <= i < |xs| ==> BatchFits(xs[i].records) && IsInt64(xs[i].offset)
    requires Torn(torn)
    ensures DecodeBatches(Join(BuiltBytes(xs, crc)) + torn) == Some(AllResolved(xs))
  {
    hide DecodeBatches, DecodeOneBatch, BatchBytes, BatchFits, Resolved, Honest, Torn;
    if xs == [] {
      assert Join(BuiltBytes(xs, crc)) + torn == torn;
      DecodeTorn(torn);
    } else {
      var x := xs[0];
      var b, rest := BatchBytes(x.offset, x.records, crc), Join(BuiltBytes(xs[1..], crc)) + torn;
      JoinFirst(xs, crc, torn);
      BuiltIsHonest(x, crc);
      BatchRoundTrip(x.offset, x.records, crc);
      DecodeJoin(xs[1..], crc, torn);
      DecodeFirst(b, rest, Resolved(x.offset, x.records), AllResolved(xs[1..]));
    }
  }

  // ----- the loops -----

  function Zeros(n: nat): (b: Bytes)
    ensures |b| == n
  {
    seq(n, _ => 0)
  }

  /** Overwrites a field at a fixed position. */
  function Put(b: Bytes, pos: nat, field: Bytes): (r: Bytes)
    requires pos + |field| <= |b|
    ensures |r| == |b|
  {
    b[..pos] + field + b[pos + |field|..]
  }

  lemma PutNext(b: Bytes, prefix: Bytes, k: nat, field: Bytes)
    requires b == prefix + Zeros(k) && |field| <= k
    ensures Put(b, |prefix|, field) == (prefix + field) + Zeros(k - |field|)
  {
    assert Put(b, |prefix|, field)[..|prefix| + |field|] == prefix + field;
  }

  lemma PutSecond(a: Bytes, b: Bytes, c: Bytes, d: Bytes, e: Bytes, field: Bytes)
    requires |field| == |b|
    ensures Put(a + b + c + d + e, |a|, field) == a + field + c + d + e
  {}

  lemma PutFourth(a: Bytes, b: Bytes, c: Bytes, d: Bytes, e: Bytes, field: Bytes)
    requires |field| == |d|
    ensures Put(a + b + c + d + e, |a| + |b| + |c|, field) == a + b + c + field + e
  {}

  lemma FifthPart(a: Bytes, b: Bytes, c: Bytes, d: Bytes, e: Bytes)
    ensures (a + b + c + d + e)[|a| + |b| + |c| + |d|..] == e
  {}

  lemma FiveParts(a: Bytes, b: Bytes, c: Bytes, d: Bytes, e: Bytes)
    ensures a + b + c + d + e == a + (b + (c + d + e))
  {}

  method BuildBody(records: seq<BatchRecord>) returns (body: Bytes)
    ensures body == Body(records)
  {
    hide EncodeRecord;
    body := [];
    ghost var ps := Numbered(records);
    for i := 0 to |records|
      invariant body == Items(WriteRecord(), ps[..i])
    {
      assert ps[..i + 1][..i] == ps[..i] && ps[i] == (records[i], i);
      body := body + EncodeRecord(records[i], i);
    }
    assert ps[..|records|] == ps;
  }

  /** The 40 header bytes from the attributes on, written field by field. */
  method FillChecked(batch: Bytes, ghost prefix: Bytes, n: nat) returns (b: Bytes)
    requires |prefix| == 21 && batch == prefix + Zeros(40)
    ensures b == prefix + CheckedHeader(n)
  {
    hide U16, U32, U64, Zeros;
    b := batch;
    ghost var p := prefix;
    PutNext(b, p, 40, U16(0));
    b, p := Put(b, 21, U16(0)), p + U16(0);
    PutNext(b, p, 38, U32((n - 1) % TwoTo32));
    b, p := Put(b, 23, U32((n - 1) % TwoTo32)), p + U32((n - 1) % TwoTo32);
    PutNext(b, p, 34, U64(BaseTimestamp));
    b, p := Put(b, 27, U64(BaseTimestamp)), p + U64(BaseTimestamp);
    PutNext(b, p, 26, U64(BaseTimestamp));
    b, p := Put(b, 35, U64(BaseTimestamp)), p + U64(BaseTimestamp);
    PutNext(b, p, 18, U64(TwoTo64 - 1));
    b, p := Put(b, 43, U64(TwoTo64 - 1)), p + U64(TwoTo64 - 1);
    PutNext(b, p, 10, U16(TwoTo16 - 1));
    b, p := Put(b, 51, U16(TwoTo16 - 1)), p + U16(TwoTo16 - 1);
    PutNext(b, p, 8, U32(TwoTo32 - 1));
    b, p := Put(b, 53, U32(TwoTo32 - 1)), p + U32(TwoTo32 - 1);
    PutNext(b, p, 4, U32(n % TwoTo32));
    b, p := Put(b, 57, U32(n % TwoTo32)), p + U32(n % TwoTo32);
    assert p == prefix + CheckedHeader(n);
  }

  lemma SkipZeros(p: Bytes, k: nat, n: nat)
    requires n <= k
    ensures p + Zeros(k) == (p + Zeros(n)) + Zeros(k - n)
  {}

  /** The 21 bytes before: base offset, leader epoch and magic; the length and
      the checksum stay open. */
  method FillHead() returns (b: Bytes)
    ensures b == (U64(0) + Zeros(4) + (U32(TwoTo32 - 1) + [2]) + Zeros(4)) + Zeros(40)
  {
    hide U32, U64;
    b := Zeros(HeaderSize);
    ghost var p: Bytes := [];
    assert b == p + Zeros(61);
    hide Zeros;
    PutNext(b, p, 61, U64(0));
    b, p := Put(b, 0, U64(0)), p + U64(0);
    SkipZeros(p, 53, 4);
    p := p + Zeros(4);
    PutNext(b, p, 49, U32(TwoTo32 - 1));
    b, p := Put(b, 12, U32(TwoTo32 - 1)), p + U32(TwoTo32 - 1);
    PutNext(b, p, 45, [2]);
    b, p := Put(b, 16, [2]), p + [2];
    SkipZeros(p, 44, 4);
    assert p + Zeros(4) == U64(0) + Zeros(4) + (U32(TwoTo32 - 1) + [2]) + Zeros(4);
  }

  method BuildRecordBatch(records: seq<BatchRecord>, crc: Bytes -> nat) returns (batch: Bytes)
    ensures batch == BatchBytes(0, records, crc)
  {
    hide U32, U64, Items, Zeros, CheckedHeader, Put;
    var body := BuildBody(records);
    batch := FillHead();
    ghost var head, open, epoch, checked := U64(0), Zeros(4), U32(TwoTo32 - 1) + [2], Checked(records);
    batch := FillChecked(batch, head + open + epoch + open, |records|);
    batch := batch + body;
    assert batch == head + open + epoch + open + checked;
    var lengthField := U32((|batch| - 12) % TwoTo32);
    PutSecond(head, open, epoch, open, checked, lengthField);
    batch := Put(batch, 8, lengthField);
    FifthPart(head, lengthField, epoch, open, checked);
    var crcField := U32(crc(batch[21..]) % TwoTo32);
    PutFourth(head, lengthField, epoch, open, checked, crcField);
    batch := Put(batch, 17, crcField);
    FiveParts(head, lengthField, epoch, crcField, checked);
  }

  method DecodeBatch(batch: Bytes) returns (r: Option<seq<DecodedRecord>>)
    ensures r == DecodeOneBatch(batch)
  {
    hide ReadRecord, TakeItems, GetBigEndian, Signed32, Signed64;
    if |batch| < HeaderSize { return None; }
    if batch[16] != 2 { return None; }
    var baseOffset := Signed64(GetBigEndian(batch[0..8]));
    var baseTimestamp := Signed64(GetBigEndian(batch[27..35]));
    var recordCount := Signed32(GetBigEndian(batch[57..61]));
    if recordCount < 0 { return None; }
    var read := ReadRecord(baseOffset, baseTimestamp);
    var records := TakeRecords(read, recordCount, batch[HeaderSize..]);
    return if records.Err? then None else Some(records.value);
  }

  method TakeRecords(read: Bytes -> Parsed<DecodedRecord>, n: nat, body: Bytes) returns (r: Parsed<seq<DecodedRecord>>)
    ensures r == TakeItems(read, n, body)
  {
    var dec := new Decoder(body);
    var out: seq<DecodedRecord> := [];
    for i := 0 to n
      invariant TakeItems(read, i, body) == Ok(out, dec.input)
    {
      var record := dec.Read(read);
      if record.Err? {
        StuckItems(read, i + 1, n, body);
        return Err;
      }
      out := out + [record.value];
    }
    return Ok(out, dec.input);
  }

  method DecodeRecordBatches(raw: Bytes) returns (r: Option<seq<DecodedRecord>>)
    ensures r == DecodeBatches(raw)
  {
    hide DecodeOneBatch, GetBigEndian;
    var b, out: seq<DecodedRecord> := raw, [];
    assert DecodeBatches(raw).Some? ==> [] + DecodeBatches(raw).value == DecodeBatches(raw).value;
    while |b| >= 12
      invariant DecodeBatches(raw) == (if DecodeBatches(b).None? then None else Some(out + DecodeBatches(b).value))
      decreases |b|
    {
      var total := TotalLength(b);
      if total < HeaderSize || total > |b| { break; }
      var records := DecodeBatch(b[..total]);
      if records.None? { return None; }
      ghost var others := DecodeBatches(b[total..]);
      if others.Some? { assert out + (records.value + others.value) == out + records.value + others.value; }
      out := out + records.value;
      b := b[total..];
    }
    assert out + [] == out;
    return Some(out);
  }

  method SplitBatches(b: Bytes) returns (out: seq<Bytes>)
    ensures out == Split(b)
  {
    hide GetBigEndian;
    var rest := b;
    out := [];
    while |rest| >= 12
      invariant out + Split(rest) == Split(b)
      decreases |rest|
    {
      var total := TotalLength(rest);
      if total > |rest| || total < 12 { break; }
      assert out + Split(rest) == out + [rest[..total]] + Split(rest[total..]);
      out := out + [rest[..total]];
      rest := rest[total..];
    }
  }
}
