/** The blob that carries a member's assignment through SyncGroup. */
module AssignmentCodec {
  import opened Wire
  import opened Assignor

  function EntryBytes(x: TopicPartitions): Bytes {
    StringBytes(x.topic) + ArrayBytes(Int32Bytes, x.partitions)
  }

  function TakeEntry(s: Bytes): Parsed<TopicPartitions> {
    var (topic, s) :- TakeString(s);
    var (partitions, s) :- TakeArray(TakeInt32, s);
    Ok(TopicPartitions(topic, partitions), s)
  }

  /** Version 0, the topics with their partitions, null user data. */
  function Blob(a: seq<TopicPartitions>): (b: Bytes)
    ensures b != []
  {
    Int16Bytes(0) + (ArrayBytes(EntryBytes, a) + Int32Bytes(-1))
  }

  /** An empty blob is no assignment; the user data is not read. */
  function ParseBlob(b: Bytes): Parsed<seq<TopicPartitions>> {
    if b == [] then Ok([], [])
    else
      var (_, s) :- TakeInt16(b);
      TakeArray(TakeEntry, s)
  }

  predicate EntryFits(x: TopicPartitions) {
    |x.topic| <= 32767 && |x.partitions| < TwoTo31 && forall i :: 0 <= i < |x.partitions| ==> IsInt32(x.partitions[i])
  }

  predicate Fits(a: seq<TopicPartitions>) {
    |a| < TwoTo31 && forall i :: 0 <= i < |a| ==> EntryFits(a[i])
  }

  lemma IntReads(v: int)
    requires IsInt32(v)
    ensures Reads(Int32Bytes, TakeInt32, v, v)
  {
    hide Int32Bytes, TakeInt32;
    forall rest { Int32RoundTrip(v, rest); }
  }

  lemma EntryReads(x: TopicPartitions)
    requires EntryFits(x)
    ensures Reads(EntryBytes, TakeEntry, x, x)
  {
    hide StringBytes, TakeString, ArrayBytes, TakeArray, Reads;
    forall i | 0 <= i < |x.partitions|
      ensures Reads(Int32Bytes, TakeInt32, x.partitions[i], x.partitions[i])
    {
      IntReads(x.partitions[i]);
    }
    forall rest
      ensures TakeEntry(EntryBytes(x) + rest) == Ok(x, rest)
    {
      var tail := ArrayBytes(Int32Bytes, x.partitions) + rest;
      assert EntryBytes(x) + rest == StringBytes(x.topic) + tail;
      StringRoundTrip(x.topic, tail);
      ArrayRoundTrip(Int32Bytes, TakeInt32, x.partitions, rest);
    }
    AllReads(x);
  }

  lemma AllReads(x: TopicPartitions)
    requires forall rest :: TakeEntry(EntryBytes(x) + rest) == Ok(x, rest)
    ensures Reads(EntryBytes, TakeEntry, x, x)
  {
    hide EntryBytes, TakeEntry;
  }

  /** An encoded assignment decodes to itself. */
  lemma AssignmentRoundTrip(a: seq<TopicPartitions>)
    requires Fits(a)
    ensures ParseBlob(Blob(a)).Ok? && ParseBlob(Blob(a)).value == a
  {
    hide TakeInt16, Int16Bytes, ArrayBytes, TakeArray, Reads, EntryFits;
    var tail := ArrayBytes(EntryBytes, a) + Int32Bytes(-1);
    Int16RoundTrip(0, tail);
    forall i | 0 <= i < |a|
      ensures Reads(EntryBytes, TakeEntry, a[i], a[i])
    {
      EntryReads(a[i]);
    }
    ArrayRoundTrip(EntryBytes, TakeEntry, a, Int32Bytes(-1));
  }

  lemma TakeEntryCut(s: Bytes, k: nat)
    requires k <= |s|
    ensures Cut(s, TakeEntry(s), k, TakeEntry(s[..k]))
  {
    hide TakeString, TakeArray, TakeInt32, Cut, CutsShort;
    StringCut(s, k);
    var a, a' := TakeString(s), TakeString(s[..k]);
    if a.Err? { CutFails(s, TakeEntry(s), k, TakeEntry(s[..k])); return; }
    CutBound(s, a, k, a');
    var j := Left(s, a.rest, k);
    IntsCutShort();
    ArrayCut(TakeInt32, a.rest, j);
    var b := TakeArray(TakeInt32, a.rest);
    CutThen(s, a, k, a', b, TakeArray(TakeInt32, a.rest[..j]));
    var b' := if a'.Err? then Err else TakeArray(TakeInt32, a'.rest);
    if b.Err? { CutFails(s, TakeEntry(s), k, TakeEntry(s[..k])); return; }
    SameValue(s, b, k, b');
    CutAs(s, b, k, b', TopicPartitions(a.value, b.value));
  }

  lemma EntriesCutShort()
    ensures CutsShort(TakeEntry)
  {
    hide TakeEntry, Cut;
    forall s, k | 0 <= k <= |s| { TakeEntryCut(s, k); }
  }

  /** A blob that is cut decodes to the assignment if only user data is lost, to no
      assignment if nothing is left, and not at all otherwise. */
  lemma BlobCutIff(a: seq<TopicPartitions>, k: nat)
    requires Fits(a) && k <= |Blob(a)|
    ensures var r := ParseBlob(Blob(a)[..k]);
            if k == 0 then r == Ok([], [])
            else if k < |Blob(a)| - 4 then r.Err?
            else r.Ok? && r.value == a
  {
    hide TakeInt16, Int16Bytes, U32, ArrayBytes, TakeArray, Reads, EntryFits, Cut, CutsShort;
    var s, data := Blob(a), Int32Bytes(-1);
    var tail := ArrayBytes(EntryBytes, a) + data;
    Int16RoundTrip(0, tail);
    forall i | 0 <= i < |a| ensures Reads(EntryBytes, TakeEntry, a[i], a[i]) { EntryReads(a[i]); }
    ArrayRoundTrip(EntryBytes, TakeEntry, a, data);
    IntCut(s, k);
    var v := TakeInt16(s);
    CutBound(s, v, k, TakeInt16(s[..k]));
    var j := Left(s, v.rest, k);
    EntriesCutShort();
    ArrayCut(TakeEntry, v.rest, j);
    CutThen(s, v, k, TakeInt16(s[..k]), TakeArray(TakeEntry, v.rest), TakeArray(TakeEntry, v.rest[..j]));
    CutLeaves(s, TakeArray(TakeEntry, v.rest), k,
              if TakeInt16(s[..k]).Err? then Err else TakeArray(TakeEntry, v.rest[..j]), 4);
  }

  lemma CutLeaves<T>(s: Bytes, a: Parsed<T>, k: nat, a': Parsed<T>, left: nat)
    requires k <= |s| && a.Ok? && |a.rest| == left && Cut(s, a, k, a')
    ensures if k < |s| - left then a'.Err? else a'.Ok? && a'.value == a.value
  {}

  method EncodeAssignment(a: seq<TopicPartitions>) returns (b: Bytes)
    ensures b == Blob(a)
  {
    hide ArrayBytes, Int16Bytes, Int32Bytes;
    var e := new Encoder();
    e.Write(Int16Bytes(0));
    WriteArray(e, EntryBytes, a);
    e.Write(Int32Bytes(-1));
    b := e.buf;
  }

  method DecodeAssignment(b: Bytes) returns (r: Parsed<seq<TopicPartitions>>)
    ensures r == ParseBlob(b)
  {
    hide TakeInt16, TakeArray;
    if |b| == 0 { return Ok([], []); }
    var d := new Decoder(b);
    var version := d.Read(TakeInt16);
    if version.Err? { return Err; }
    r := ReadArray(d, TakeEntry);
  }
}
