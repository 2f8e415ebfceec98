/** The records of the metadata log and their bytes. */
module MetadataCodec {
  import opened Wire
  import opened Topics

  datatype Record = TopicUpsert(topic: Bytes, partitions: seq<Partition>) | TopicDelete(topic: Bytes)

  function Ids(ids: seq<int>): Bytes { ArrayBytes(Int32Bytes, ids) }
  function TakeIds(s: Bytes): Parsed<seq<int>> { TakeArray(TakeInt32, s) }

  function PartitionBytes(p: Partition): Bytes {
    Int32Bytes(p.id) + (Int32Bytes(p.leader) + (Ids(p.replicas) + Ids(p.isr)))
  }

  function TakePartition(s: Bytes): Parsed<Partition> {
    var (id, s) :- TakeInt32(s);
    var (leader, s) :- TakeInt32(s);
    var (replicas, s) :- TakeIds(s);
    var (isr, s) :- TakeIds(s);
    Ok(Partition(id, leader, replicas, isr), s)
  }

  function RecordBytes(r: Record): Bytes {
    match r
    case TopicUpsert(topic, partitions) => Int8Bytes(0) + (StringBytes(topic) + ArrayBytes(PartitionBytes, partitions))
    case TopicDelete(topic) => Int8Bytes(1) + StringBytes(topic)
  }

  function ParseRecord(payload: Bytes): Parsed<Record> {
    var (kind, s) :- TakeInt8(payload);
    if kind != 0 && kind != 1 then Err
    else
      var (topic, s) :- TakeString(s);
      if kind == 1 then Ok(TopicDelete(topic), s)
      else
        var (partitions, s) :- TakeArray(TakePartition, s);
        Ok(TopicUpsert(topic, partitions), s)
  }

  // ----- round trip -----

  predicate IdsFit(ids: seq<int>) {
    |ids| < TwoTo31 && forall i :: 0 <= i < |ids| ==> IsInt32(ids[i])
  }

  predicate PartitionFits(p: Partition) {
    IsInt32(p.id) && IsInt32(p.leader) && IdsFit(p.replicas) && IdsFit(p.isr)
  }

  predicate PartitionsFit(ps: seq<Partition>) {
    |ps| < TwoTo31 && forall i :: 0 <= i < |ps| ==> PartitionFits(ps[i])
  }

  predicate PartsFit(r: Record) {
    r.TopicUpsert? ==> PartitionsFit(r.partitions)
  }

  lemma IdsRoundTrip(ids: seq<int>, rest: Bytes)
    requires IdsFit(ids)
    ensures TakeIds(Ids(ids) + rest) == Ok(ids, rest)
  {
    hide Int32Bytes, TakeInt32, TakeArray, ArrayBytes;
    forall i | 0 <= i < |ids|
      ensures Reads(Int32Bytes, TakeInt32, ids[i], ids[i])
    {
      forall tail { Int32RoundTrip(ids[i], tail); }
    }
    ArrayRoundTrip(Int32Bytes, TakeInt32, ids, rest);
  }

  lemma PartitionRoundTrip(p: Partition, rest: Bytes)
    requires PartitionFits(p)
    ensures TakePartition(PartitionBytes(p) + rest) == Ok(p, rest)
  {
    hide Int32Bytes, TakeInt32, TakeIds, Ids;
    var s3 := Ids(p.isr) + rest;
    var s2 := Ids(p.replicas) + s3;
    var s1 := Int32Bytes(p.leader) + s2;
    assert PartitionBytes(p) + rest == Int32Bytes(p.id) + s1;
    Int32RoundTrip(p.id, s1);
    Int32RoundTrip(p.leader, s2);
    IdsRoundTrip(p.replicas, s3);
    IdsRoundTrip(p.isr, rest);
  }

  lemma PartitionReads(p: Partition)
    requires PartitionFits(p)
    ensures Reads(PartitionBytes, TakePartition, p, p)
  {
    hide PartitionBytes, TakePartition;
    forall rest { PartitionRoundTrip(p, rest); }
  }

  lemma PartitionsRoundTrip(ps: seq<Partition>, rest: Bytes)
    requires PartitionsFit(ps)
    ensures TakeArray(TakePartition, ArrayBytes(PartitionBytes, ps) + rest) == Ok(ps, rest)
  {
    hide TakeArray, ArrayBytes, Reads, PartitionFits;
    forall i | 0 <= i < |ps|
      ensures Reads(PartitionBytes, TakePartition, ps[i], ps[i])
    {
      PartitionReads(ps[i]);
    }
    ArrayRoundTrip(PartitionBytes, TakePartition, ps, rest);
  }

  lemma KindRoundTrip(kind: int, rest: Bytes)
    requires kind == 0 || kind == 1
    ensures TakeInt8(Int8Bytes(kind) + rest) == Ok(kind, rest)
  {
    Int8RoundTrip(kind, rest);
    NarrowIdentity(kind, 256);
  }

  /** A record whose numbers fit comes back from its bytes exactly when its topic
      name is at most 32767 bytes. */
  lemma RecordRoundTrip(r: Record)
    requires PartsFit(r)
    ensures ParseRecord(RecordBytes(r)).Ok? && ParseRecord(RecordBytes(r)).value == r <==> |r.topic| <= 32767
  {
    hide TakeInt8, Int8Bytes, TakeString, StringBytes, TakeArray, ArrayBytes, PartitionsFit;
    match r
    case TopicDelete(topic) =>
      KindRoundTrip(1, StringBytes(topic));
      assert StringBytes(topic) + [] == StringBytes(topic);
      StringValue(topic, []);
    case TopicUpsert(topic, ps) =>
      var tail := ArrayBytes(PartitionBytes, ps);
      KindRoundTrip(0, StringBytes(topic) + tail);
      StringValue(topic, tail);
      if |topic| <= 32767 {
        assert tail + [] == tail;
        PartitionsRoundTrip(ps, []);
      }
  }

  /** Short strings come back with the right rest; longer ones never do. */
  lemma StringValue(s: Bytes, rest: Bytes)
    ensures |s| <= 32767 ==> TakeString(StringBytes(s) + rest) == Ok(s, rest)
    ensures |s| > 32767 ==> TakeString(StringBytes(s) + rest).Err? || TakeString(StringBytes(s) + rest).value != s
  {
    StringRoundTrip(s, rest);
    if |s| > 32767 {
      assert StringBytes(s) + rest == Int16Bytes(|s|) + (s + rest);
      Int16RoundTrip(|s|, s + rest);
    }
  }

  // ----- records that end early -----

  lemma IdsCut(s: Bytes, k: nat)
    requires k <= |s|
    ensures Cut(s, TakeIds(s), k, TakeIds(s[..k]))
  {
    hide TakeInt32, TakeArray, Cut, CutsShort;
    IntsCutShort();
    ArrayCut(TakeInt32, s, k);
  }

  lemma PartitionCut(s: Bytes, k: nat)
    requires k <= |s|
    ensures Cut(s, TakePartition(s), k, TakePartition(s[..k]))
  {
    hide TakeInt32, TakeIds, Cut;
    IntCut(s, k);
    var a, a' := TakeInt32(s), TakeInt32(s[..k]);
    if a.Err? { CutFails(s, TakePartition(s), k, TakePartition(s[..k])); return; }
    CutBound(s, a, k, a');
    var i := Left(s, a.rest, k);
    IntCut(a.rest, i);
    var b := TakeInt32(a.rest);
    CutThen(s, a, k, a', b, TakeInt32(a.rest[..i]));
    var b' := if a'.Err? then Err else TakeInt32(a'.rest);
    if b.Err? { CutFails(s, TakePartition(s), k, TakePartition(s[..k])); return; }
    CutBound(s, b, k, b');
    var j := Left(s, b.rest, k);
    IdsCut(b.rest, j);
    var c := TakeIds(b.rest);
    CutThen(s, b, k, b', c, TakeIds(b.rest[..j]));
    var c' := if b'.Err? then Err else TakeIds(b'.rest);
    if c.Err? { CutFails(s, TakePartition(s), k, TakePartition(s[..k])); return; }
    CutBound(s, c, k, c');
    var l := Left(s, c.rest, k);
    IdsCut(c.rest, l);
    var d := TakeIds(c.rest);
    CutThen(s, c, k, c', d, TakeIds(c.rest[..l]));
    var d' := if c'.Err? then Err else TakeIds(c'.rest);
    if d.Err? { CutFails(s, TakePartition(s), k, TakePartition(s[..k])); return; }
    SameValue(s, d, k, d');
    CutAs(s, d, k, d', Partition(a.value, b.value, c.value, d.value));
  }

  lemma PartitionsCutShort()
    ensures CutsShort(TakePartition)
  {
    hide TakePartition, Cut;
    forall s, k | 0 <= k <= |s| { PartitionCut(s, k); }
  }

  lemma ParseCut(s: Bytes, k: nat)
    requires k <= |s|
    ensures Cut(s, ParseRecord(s), k, ParseRecord(s[..k]))
  {
    hide TakeInt8, TakeString, TakeArray, Cut, CutsShort;
    IntCut(s, k);
    var a, a' := TakeInt8(s), TakeInt8(s[..k]);
    if a.Err? || (a.value != 0 && a.value != 1) { CutFails(s, ParseRecord(s), k, ParseRecord(s[..k])); return; }
    CutBound(s, a, k, a');
    var i := Left(s, a.rest, k);
    StringCut(a.rest, i);
    var b := TakeString(a.rest);
    CutThen(s, a, k, a', b, TakeString(a.rest[..i]));
    var b' := if a'.Err? then Err else TakeString(a'.rest);
    if b.Err? { CutFails(s, ParseRecord(s), k, ParseRecord(s[..k])); return; }
    SameValue(s, b, k, b');
    if a.value == 1 { CutAs(s, b, k, b', TopicDelete(b.value)); return; }
    CutBound(s, b, k, b');
    var j := Left(s, b.rest, k);
    PartitionsCutShort();
    ArrayCut(TakePartition, b.rest, j);
    var c := TakeArray(TakePartition, b.rest);
    CutThen(s, b, k, b', c, TakeArray(TakePartition, b.rest[..j]));
    var c' := if b'.Err? then Err else TakeArray(TakePartition, b'.rest);
    if c.Err? { CutFails(s, ParseRecord(s), k, ParseRecord(s[..k])); return; }
    SameValue(s, c, k, c');
    CutAs(s, c, k, c', TopicUpsert(b.value, c.value));
  }

  /** A record that is cut anywhere does not decode, nor does one of another kind. */
  lemma RecordCut(r: Record, k: nat, kind: int)
    requires PartsFit(r) && |r.topic| <= 32767 && k < |RecordBytes(r)| && 2 <= kind < 256
    ensures ParseRecord(RecordBytes(r)[..k]).Err? && ParseRecord(RecordBytes(r)[0 := kind]).Err?
  {
    hide ParseRecord, RecordBytes;
    NothingLeft(r);
    ParseCut(RecordBytes(r), k);
    OtherKind(RecordBytes(r)[0 := kind]);
  }

  lemma OtherKind(payload: Bytes)
    requires payload != [] && payload[0] >= 2
    ensures ParseRecord(payload).Err?
  {
    hide TakeString, TakeArray;
    assert payload[..1][0] == payload[0];
  }

  lemma NothingLeft(r: Record)
    requires PartsFit(r) && |r.topic| <= 32767
    ensures ParseRecord(RecordBytes(r)) == Ok(r, [])
  {
    hide TakeInt8, Int8Bytes, TakeString, StringBytes, TakeArray, ArrayBytes, PartitionsFit;
    match r
    case TopicDelete(topic) =>
      KindRoundTrip(1, StringBytes(topic));
      assert StringBytes(topic) + [] == StringBytes(topic);
      StringValue(topic, []);
    case TopicUpsert(topic, ps) =>
      var tail := ArrayBytes(PartitionBytes, ps);
      KindRoundTrip(0, StringBytes(topic) + tail);
      StringValue(topic, tail);
      assert tail + [] == tail;
      PartitionsRoundTrip(ps, []);
  }

  // ----- the codec -----

  method EncodeRecord(r: Record) returns (payload: Bytes)
    ensures payload == RecordBytes(r)
  {
    hide ArrayBytes, StringBytes, Int8Bytes;
    var e := new Encoder();
    e.Write(Int8Bytes(if r.TopicUpsert? then 0 else 1));
    e.Write(StringBytes(r.topic));
    if r.TopicUpsert? { WriteArray(e, PartitionBytes, r.partitions); }
    payload := e.buf;
  }

  method DecodeRecord(payload: Bytes) returns (r: Parsed<Record>)
    ensures r == ParseRecord(payload)
  {
    hide TakeInt8, TakeString, TakeArray;
    var d := new Decoder(payload);
    var kind := d.Read(TakeInt8);
    if kind.Err? || (kind.value != 0 && kind.value != 1) { return Err; }
    var topic := d.Read(TakeString);
    if topic.Err? { return Err; }
    if kind.value != 0 { return Ok(TopicDelete(topic.value), d.input); }
    var partitions := ReadArray(d, TakePartition);
    if partitions.Err? { return Err; }
    return Ok(TopicUpsert(topic.value, partitions.value), d.input);
  }
}
