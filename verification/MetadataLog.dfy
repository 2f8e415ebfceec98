/** The metadata log on disk: reading across segments, replay, and the pull loop. */
module MetadataLogFile {
  import opened Wire
  import opened Storage
  import opened Topics
  import opened MetadataCodec
  import opened Metadata
  import LogModel

  /** Reads every payload from an offset on, segment by segment. */
  method ReadRawFrom(log: Log, offset: int) returns (payloads: seq<Bytes>)
    requires log.Valid()
    ensures payloads == if 0 <= offset < |log.contents| then log.contents[offset..] else []
  {
    hide LogModel.Holds;
    payloads := [];
    var next := offset;
    while true
      invariant 0 <= offset < |log.contents| ==>
                offset <= next <= |log.contents| && payloads == log.contents[offset..next]
      invariant offset < 0 || offset >= |log.contents| ==> payloads == [] && next == offset
      decreases |log.contents| - next
    {
      var records, owner := log.Read(next, -1);
      if records == [] { break; }
      ghost var end := LogModel.SegmentEnd(log.View(), owner);
      assert records == LogModel.EntriesFrom(next, log.contents[next..end]);
      ghost var start := next;
      for i := 0 to |records|
        invariant payloads == log.contents[offset..start + i]
        invariant next == start + i
      {
        payloads := payloads + [records[i].payload];
        next := records[i].offset + 1;
      }
    }
  }

  function ParseAll(payloads: seq<Bytes>): Option<seq<Record>> {
    if payloads == [] then Some([])
    else
      var init, r := ParseAll(payloads[..|payloads| - 1]), ParseRecord(payloads[|payloads| - 1]);
      if init.None? || r.Err? then None else Some(init.value + [r.value])
  }

  lemma {:induction false} ParseAllStuck(payloads: seq<Bytes>, i: nat)
    requires i < |payloads| && ParseRecord(payloads[i]).Err?
    ensures ParseAll(payloads).None?
  {
    hide ParseRecord;
    if i < |payloads| - 1 { ParseAllStuck(payloads[..|payloads| - 1], i); }
  }

  /** ReadFrom: fails as a whole when one payload does not decode. */
  method ReadFrom(log: Log, offset: int) returns (records: Option<seq<Record>>)
    requires log.Valid()
    ensures records == ParseAll(if 0 <= offset < |log.contents| then log.contents[offset..] else [])
  {
    hide LogModel.Holds, ParseRecord;
    var raw := ReadRawFrom(log, offset);
    var out: seq<Record> := [];
    for i := 0 to |raw|
      invariant ParseAll(raw[..i]) == Some(out)
    {
      assert raw[..i + 1][..i] == raw[..i];
      var r := DecodeRecord(raw[i]);
      if r.Err? {
        ParseAllStuck(raw, i);
        return None;
      }
      out := out + [r.value];
    }
    assert raw[..|raw|] == raw;
    return Some(out);
  }

  /** The start-up replay: read the whole log, apply record by record. */
  method ReplayAll(log: Log) returns (registry: Option<Registry>)
    requires log.Valid()
    ensures registry.Some? <==> forall i :: 0 <= i < |log.contents| ==> Decodes(log.contents[i])
    ensures registry.Some? ==> registry.value == Replay(log.contents)
  {
    hide LogModel.Holds, ParseRecord;
    var records := ReadFrom(log, 0);
    ghost var raw := log.contents;
    assert 0 < |raw| ==> raw[0..] == raw;
    ParseAllIs(raw);
    if records.None? { return None; }
    var r: Registry := map[];
    for i := 0 to |records.value|
      invariant r == Replay(raw[..i])
    {
      assert raw[..i + 1][..i] == raw[..i];
      r := Apply(r, records.value[i]);
    }
    assert raw[..|raw|] == raw;
    return Some(r);
  }

  lemma {:induction false} ParseAllIs(raw: seq<Bytes>)
    ensures ParseAll(raw).Some? <==> forall i :: 0 <= i < |raw| ==> Decodes(raw[i])
    ensures ParseAll(raw).Some? ==>
              && |ParseAll(raw).value| == |raw|
              && forall i :: 0 <= i < |raw| ==>
                   ParseRecord(raw[i]).Ok? && ParseRecord(raw[i]).value == ParseAll(raw).value[i]
  {
    hide ParseRecord;
    if raw != [] { ParseAllIs(raw[..|raw| - 1]); }
  }

  lemma NothingPulled(b: Broker)
    ensures PullAll(b, []) == b
  {}

  lemma PullStep(b: Broker, payloads: seq<Bytes>, i: nat)
    requires i < |payloads|
    ensures PullAll(b, payloads[i..]) ==
            if Decodes(payloads[i]) then PullAll(Pull(b, payloads[i]), payloads[i + 1..]) else Pull(b, payloads[i])
  {
    hide ParseRecord, Apply;
    assert payloads[i..][1..] == payloads[i + 1..];
  }

  /** fetchOnce after the response arrived: append each payload, then apply it. */
  method PullOnce(log: Log, registry: Registry, payloads: seq<Bytes>) returns (r: Registry)
    requires log.Valid() && log.nextOffset + |payloads| < TwoTo63
    requires forall i :: 0 <= i < |payloads| ==> |payloads[i]| < TwoTo32
    modifies log, log.segments
    ensures log.Valid()
    ensures forall k :: 0 <= k < |log.segments| ==> log.segments[k] in old(log.segments) || fresh(log.segments[k])
    ensures PullAll(Broker(old(log.contents), registry), payloads) == Broker(log.contents, r)
  {
    hide Log.Valid, LogModel.Holds, ParseRecord, Apply, PullAll;
    r := registry;
    ghost var start := Broker(log.contents, registry);
    assert payloads[0..] == payloads;
    for i := 0 to |payloads|
      invariant log.Valid()
      invariant forall k :: 0 <= k < |log.segments| ==> log.segments[k] in old(log.segments) || fresh(log.segments[k])
      invariant log.nextOffset + |payloads| - i < TwoTo63
      invariant PullAll(Broker(log.contents, r), payloads[i..]) == PullAll(start, payloads)
    {
      ghost var b := Broker(log.contents, r);
      PullStep(b, payloads, i);
      var _ := log.AppendWithOffset(payloads[i], false);
      var record := DecodeRecord(payloads[i]);
      if record.Err? { return; }
      r := Apply(r, record.value);
      assert Broker(log.contents, r) == Pull(b, payloads[i]);
    }
    NothingPulled(Broker(log.contents, r));
    assert payloads[|payloads|..] == [];
  }
}
