/**
 The idempotent producer: sequence numbers per producer, topic and partition
 decide whether a batch is appended, and the cached offsets agree with the log.
 */
module Producer {
  import opened Wire
  import opened RecordBatch
  import opened Storage
  import LogModel

  // ----- header fields of a batch -----

  function Pid(b: Bytes): int requires |b| >= HeaderSize { Signed64(GetBigEndian(b[43..51])) }

  function BaseSequence(b: Bytes): (r: int)
    requires |b| >= HeaderSize
    ensures IsInt32(r)
  {
    Signed32(GetBigEndian(b[53..57]))
  }

  function RecordCount(b: Bytes): (r: int)
    requires |b| >= HeaderSize
    ensures IsInt32(r)
  {
    Signed32(GetBigEndian(b[57..61]))
  }

  predicate ValidRecordBatch(b: Bytes, crc: Bytes -> nat) {
    |b| >= HeaderSize && b[16] == 2 && GetBigEndian(b[17..21]) == crc(b[21..])
  }

  lemma StampKeepsFields(b: Bytes, offset: int)
    requires |b| >= HeaderSize
    ensures var s := Stamp(b, offset);
            Pid(s) == Pid(b) && BaseSequence(s) == BaseSequence(b) && RecordCount(s) == RecordCount(b)
  {
    hide GetBigEndian, Narrow, U64;
    var s := Stamp(b, offset);
    assert s[43..51] == b[43..51] && s[53..57] == b[53..57] && s[57..61] == b[57..61];
  }

  /** A built batch is one that the broker takes: current format, true checksum, no
      producer, as many records as were put in, the last one at the last delta. */
  lemma BuiltIsValid(offset: int, records: seq<BatchRecord>, crc: Bytes -> nat)
    requires |records| < TwoTo31 && forall x :: crc(x) < TwoTo32
    ensures var b := BatchBytes(offset, records, crc);
            && ValidRecordBatch(b, crc)
            && Pid(b) == -1 && BaseSequence(b) == -1 && RecordCount(b) == |records|
            && Signed32(GetBigEndian(b[12..16])) == -1 && Signed16(GetBigEndian(b[51..53])) == -1
            && GetBigEndian(b[21..23]) == 0 && Signed32(GetBigEndian(b[23..27])) == |records| - 1
            && GetBigEndian(b[27..35]) == GetBigEndian(b[35..43]) == BaseTimestamp
  {
    hide GetBigEndian, Narrow, U16, U32, U64, Body;
    var b, checked, n := BatchBytes(offset, records, crc), Checked(records), |records|;
    assert b[12..16] == U32(TwoTo32 - 1) && b[16] == 2 && b[17..21] == U32(crc(checked) % TwoTo32);
    assert b[21..] == checked;
    U32RoundTrip(crc(checked));
    SmallMod(crc(checked), TwoTo32);
    CheckedFields(records);
    forall i, j | 21 <= i <= j <= 61 ensures b[i..j] == checked[i - 21..j - 21] {
      assert b[21..][i - 21..j - 21] == b[i..j];
    }
    U16RoundTrip(0);
    U64RoundTrip(BaseTimestamp);
    AllOnes();
    CountFields(n);
  }

  lemma CheckedFields(records: seq<BatchRecord>)
    ensures var c, n := Checked(records), |records|;
            && |c| >= 40
            && c[0..2] == U16(0) && c[2..6] == U32((n - 1) % TwoTo32)
            && c[6..14] == U64(BaseTimestamp) == c[14..22] && c[22..30] == U64(TwoTo64 - 1)
            && c[30..32] == U16(TwoTo16 - 1) && c[32..36] == U32(TwoTo32 - 1) && c[36..40] == U32(n % TwoTo32)
  {
    hide U16, U32, U64, Body;
  }

  lemma AllOnes()
    ensures Signed16(GetBigEndian(U16(TwoTo16 - 1))) == -1
    ensures Signed32(GetBigEndian(U32(TwoTo32 - 1))) == -1
    ensures Signed64(GetBigEndian(U64(TwoTo64 - 1))) == -1
  {
    hide GetBigEndian, U16, U32, U64;
    U16RoundTrip(TwoTo16 - 1);
    U32RoundTrip(TwoTo32 - 1);
    U64RoundTrip(TwoTo64 - 1);
  }

  lemma CountFields(n: nat)
    requires n < TwoTo31
    ensures Signed32(GetBigEndian(U32(n % TwoTo32))) == n
    ensures Signed32(GetBigEndian(U32((n - 1) % TwoTo32))) == n - 1
  {
    hide GetBigEndian, U32, Narrow;
    U32RoundTrip(n % TwoTo32);
    U32RoundTrip((n - 1) % TwoTo32);
    NarrowMod(n, TwoTo32);
    NarrowMod(n - 1, TwoTo32);
    NarrowIdentity(n, TwoTo32);
    NarrowIdentity(n - 1, TwoTo32);
  }

  /** Stamping the offset neither mends nor breaks a batch, and a batch whose covered
      bytes have another checksum is refused. */
  lemma StampKeepsValid(b: Bytes, offset: int, crc: Bytes -> nat)
    requires |b| >= HeaderSize
    ensures ValidRecordBatch(Stamp(b, offset), crc) <==> ValidRecordBatch(b, crc)
    ensures forall x: Bytes :: |x| == |b| - 21 && crc(x) != crc(b[21..]) && ValidRecordBatch(b, crc) ==>
              !ValidRecordBatch(b[..21] + x, crc)
  {
    hide GetBigEndian, U64;
    var s := Stamp(b, offset);
    assert s[17..21] == b[17..21] && s[21..] == b[21..] && s[16] == b[16];
    forall x: Bytes | |x| == |b| - 21 && crc(x) != crc(b[21..]) && ValidRecordBatch(b, crc)
      ensures !ValidRecordBatch(b[..21] + x, crc)
    {
      assert (b[..21] + x)[21..] == x && (b[..21] + x)[17..21] == b[17..21];
    }
  }

  /** A batch of another format, or one without a whole header, is refused. */
  lemma OtherFormatRefused(b: Bytes, crc: Bytes -> nat, format: int, k: nat)
    requires ValidRecordBatch(b, crc) && 0 <= format < 256 && format != b[16] && k < HeaderSize
    ensures !ValidRecordBatch(b[16 := format], crc) && !ValidRecordBatch(b[..k], crc)
  {
    hide GetBigEndian;
    assert b[16 := format][16] == format;
  }

  // ----- the decision -----

  datatype Key = Key(pid: int, topic: Bytes, partition: int)
  datatype Progress = Progress(lastSequence: int, lastBaseOffset: int, lastRecordCount: int)
  datatype Decision = Append | Duplicate | OutOfOrder
  datatype Check = Check(decision: Decision, cachedOffset: int)

  function CheckSequence(seqs: map<Key, Progress>, key: Key, baseSeq: int): Check {
    if key !in seqs then if baseSeq == 0 then Check(Append, 0) else Check(OutOfOrder, 0)
    else
      var p := seqs[key];
      if baseSeq == Signed32(p.lastSequence - p.lastRecordCount + 1) then Check(Duplicate, p.lastBaseOffset)
      else if baseSeq == Signed32(p.lastSequence + 1) then Check(Append, 0)
      else if baseSeq <= p.lastSequence then Check(Duplicate, p.lastBaseOffset)
      else Check(OutOfOrder, 0)
  }

  function After(baseSeq: int, recordCount: int, baseOffset: int): Progress {
    Progress(Signed32(baseSeq + recordCount - 1), baseOffset, recordCount)
  }

  // ----- one broker's producer state and partition logs -----

  datatype Place = Place(topic: Bytes, partition: int)

  datatype State = State(seqs: map<Key, Progress>, logs: map<Place, seq<Bytes>>)

  function LogOf(s: State, at: Place): seq<Bytes> {
    if at in s.logs then s.logs[at] else []
  }

  /** One produce of a valid batch: idempotent when it carries a producer id. */
  function Produce(s: State, at: Place, batch: Bytes): (State, Check)
    requires |batch| >= HeaderSize
  {
    var log := LogOf(s, at);
    var stored := s.(logs := s.logs[at := log + [Stamp(batch, |log|)]]);
    if Pid(batch) < 0 then (stored, Check(Append, |log|))
    else
      var key := Key(Pid(batch), at.topic, at.partition);
      var check := CheckSequence(s.seqs, key, BaseSequence(batch));
      if check.decision != Append then (s, check)
      else (stored.(seqs := s.seqs[key := After(BaseSequence(batch), RecordCount(batch), |log|)]), Check(Append, |log|))
  }

  // ----- what is stored -----

  predicate From(b: Bytes, pid: int) { |b| >= HeaderSize && Pid(b) == pid }

  /** What the stored batches of a producer say: the last one, where it is. */
  function LastStored(log: seq<Bytes>, pid: int): Option<Progress> {
    if log == [] then None
    else
      var n := |log| - 1;
      if From(log[n], pid) then Some(Progress(BaseSequence(log[n]) + RecordCount(log[n]) - 1, n, RecordCount(log[n])))
      else LastStored(log[..n], pid)
  }

  function NextSequence(log: seq<Bytes>, pid: int): int {
    var last := LastStored(log, pid);
    if last.None? then 0 else last.value.lastSequence + 1
  }

  /** At least one record, and one more sequence number after it still fits int32. */
  predicate SequenceFits(b: Bytes) {
    |b| >= HeaderSize && RecordCount(b) >= 1 && BaseSequence(b) + RecordCount(b) < TwoTo31
  }

  /** Each stored batch of the producer starts where the one before it ended. */
  predicate Tiled(log: seq<Bytes>, pid: int) {
    forall i :: 0 <= i < |log| ==> TileAt(log, i, pid)
  }

  predicate TileAt(log: seq<Bytes>, i: nat, pid: int)
    requires i < |log|
  {
    From(log[i], pid) ==> BaseSequence(log[i]) == NextSequence(log[..i], pid)
  }

  /** Each stored batch of the producer counts a record. */
  predicate Counted(log: seq<Bytes>, pid: int) {
    forall i :: 0 <= i < |log| ==> (From(log[i], pid) ==> RecordCount(log[i]) >= 1)
  }

  predicate Covers(b: Bytes, pid: int, sequence: int) {
    From(b, pid) && BaseSequence(b) <= sequence < BaseSequence(b) + RecordCount(b)
  }

  lemma TiledPrefix(log: seq<Bytes>, pid: int, n: nat)
    requires Tiled(log, pid) && n <= |log|
    ensures Tiled(log[..n], pid)
  {
    hide NextSequence, From;
    forall i | 0 <= i < n
      ensures TileAt(log[..n], i, pid)
    {
      assert TileAt(log, i, pid) && log[..n][..i] == log[..i];
    }
  }

  /** Some stored batch of the producer has that sequence number. */
  ghost predicate Stored(log: seq<Bytes>, pid: int, sequence: int) {
    exists i :: 0 <= i < |log| && Covers(log[i], pid, sequence)
  }

  ghost predicate StoredOnce(log: seq<Bytes>, pid: int, sequence: int) {
    forall i, j :: 0 <= i < j < |log| && Covers(log[i], pid, sequence) ==> !Covers(log[j], pid, sequence)
  }

  /** The stored batches tile 0..lastSequence: every number below the next one is
      in exactly one of them, and no other number is in any. */
  lemma {:induction false} EachSequenceOnce(log: seq<Bytes>, pid: int, sequence: int)
    requires Tiled(log, pid) && Counted(log, pid)
    ensures NextSequence(log, pid) >= 0
    ensures Stored(log, pid, sequence) <==> 0 <= sequence < NextSequence(log, pid)
    ensures StoredOnce(log, pid, sequence)
  {
    hide Pid, BaseSequence, RecordCount;
    if log != [] {
      var n := |log| - 1;
      TiledPrefix(log, pid, n);
      assert TileAt(log, n, pid);
      EachSequenceOnce(log[..n], pid, sequence);
      assert forall i :: 0 <= i < n ==> log[..n][i] == log[i];
      if 0 <= sequence < NextSequence(log[..n], pid) {
        var i :| 0 <= i < n && Covers(log[..n][i], pid, sequence);
        assert Covers(log[i], pid, sequence);
      } else if From(log[n], pid) && Covers(log[n], pid, sequence) {
        assert Covers(log[n], pid, sequence);
      }
    }
  }

  /** What the manager remembers is what the log says. */
  ghost predicate Agrees(s: State) {
    forall key: Key :: key.pid >= 0 ==> AgreesOn(s, key)
  }

  ghost predicate AgreesOn(s: State, key: Key) {
    var log := LogOf(s, Place(key.topic, key.partition));
    && Tiled(log, key.pid) && Counted(log, key.pid)
    && LastStored(log, key.pid) == (if key in s.seqs then Some(s.seqs[key]) else None)
    && (key in s.seqs ==> 1 <= s.seqs[key].lastRecordCount < TwoTo31 && 0 <= s.seqs[key].lastSequence < TwoTo31 - 1)
  }

  lemma GrowTiled(log: seq<Bytes>, b: Bytes, pid: int)
    requires Tiled(log, pid) && Counted(log, pid)
    requires From(b, pid) ==> SequenceFits(b) && BaseSequence(b) == NextSequence(log, pid)
    ensures Tiled(log + [b], pid) && Counted(log + [b], pid)
    ensures LastStored(log + [b], pid) ==
            if !From(b, pid) then LastStored(log, pid)
            else Some(Progress(BaseSequence(b) + RecordCount(b) - 1, |log|, RecordCount(b)))
  {
    hide Pid, BaseSequence, RecordCount;
    var grown := log + [b];
    assert grown[..|log|] == log;
    forall i | 0 <= i < |log|
      ensures TileAt(grown, i, pid)
    {
      assert TileAt(log, i, pid) && grown[..i] == log[..i];
    }
  }

  /** Told from the log: a batch that continues its producer's sequence is appended,
      one that starts below it is a duplicate if anything is stored, and any other
      is out of order. */
  lemma DecisionIs(s: State, key: Key, baseSeq: int)
    requires AgreesOn(s, key) && IsInt32(baseSeq)
    ensures var log := LogOf(s, Place(key.topic, key.partition));
            var next, some := NextSequence(log, key.pid), LastStored(log, key.pid).Some?;
            var decision := CheckSequence(s.seqs, key, baseSeq).decision;
            && (decision == Append <==> baseSeq == next)
            && (decision == Duplicate <==> some && baseSeq < next)
            && (decision == OutOfOrder <==> baseSeq > next || (!some && baseSeq < 0))
  {
    if key in s.seqs {
      var p := s.seqs[key];
      NarrowIdentity(p.lastSequence + 1, TwoTo32);
      NarrowSmall(p.lastSequence, p.lastRecordCount);
    }
  }

  lemma NarrowSmall(last: int, count: int)
    requires 0 <= last < TwoTo31 - 1 && 1 <= count < TwoTo31
    ensures Signed32(last - count + 1) == last - count + 1
  {
    NarrowIdentity(last - count + 1, TwoTo32);
  }

  /** The batch passes its producer's sequence check. */
  predicate Accepted(s: State, at: Place, batch: Bytes)
    requires |batch| >= HeaderSize
  {
    Pid(batch) >= 0 &&
    CheckSequence(s.seqs, Key(Pid(batch), at.topic, at.partition), BaseSequence(batch)).decision == Append
  }

  /** A produce step keeps the manager's memory and the log in agreement. */
  lemma ProduceAgrees(s: State, at: Place, batch: Bytes)
    requires Agrees(s) && |batch| >= HeaderSize && (Accepted(s, at, batch) ==> SequenceFits(batch))
    ensures Agrees(Produce(s, at, batch).0)
  {
    hide Pid, BaseSequence, RecordCount, Stamp, Narrow, CheckSequence;
    var (s', check) := Produce(s, at, batch);
    var log, pid := LogOf(s, at), Pid(batch);
    var stamped := Stamp(batch, |log|);
    StampKeepsFields(batch, |log|);
    forall key: Key | key.pid >= 0
      ensures AgreesOn(s', key)
    {
      assert AgreesOn(s, key);
      if s' != s && Place(key.topic, key.partition) == at {
        if key.pid == pid {
          DecisionIs(s, key, BaseSequence(batch));
          NarrowEnd(batch);
        }
        if Pid(batch) >= 0 { NextFits(s, key); }
        GrowTiled(log, stamped, key.pid);
      }
    }
  }

  lemma NarrowEnd(b: Bytes)
    requires SequenceFits(b)
    ensures Signed32(BaseSequence(b) + RecordCount(b) - 1) == BaseSequence(b) + RecordCount(b) - 1
  {
    hide BaseSequence, RecordCount;
    NarrowIdentity(BaseSequence(b) + RecordCount(b) - 1, TwoTo32);
  }

  lemma NextFits(s: State, key: Key)
    requires AgreesOn(s, key)
    ensures NextSequence(LogOf(s, Place(key.topic, key.partition)), key.pid) >= 0
  {}

  // ----- exactly once, and exactly when -----

  /** The number the manager will take next. */
  function NextExpected(s: State, key: Key): int {
    if key in s.seqs then s.seqs[key].lastSequence + 1 else 0
  }

  /** All numbers below the next one are stored, each once, no others are, and
      the next one is an int32 that will be taken. */
  ghost predicate OnceOn(s: State, key: Key) {
    var log, next := LogOf(s, Place(key.topic, key.partition)), NextExpected(s, key);
    && 0 <= next < TwoTo31
    && (forall q :: Stored(log, key.pid, q) <==> 0 <= q < next)
    && (forall q :: StoredOnce(log, key.pid, q))
    && CheckSequence(s.seqs, key, next).decision == Append
  }

  ghost predicate ExactlyOnce(s: State) {
    forall key: Key :: key.pid >= 0 ==> OnceOn(s, key)
  }

  lemma AgreesIsOnce(s: State, key: Key)
    requires AgreesOn(s, key)
    ensures OnceOn(s, key)
  {
    hide CheckSequence, Tiled, Counted, Stored, StoredOnce;
    var log := LogOf(s, Place(key.topic, key.partition));
    assert NextExpected(s, key) == NextSequence(log, key.pid);
    forall q ensures (Stored(log, key.pid, q) <==> 0 <= q < NextSequence(log, key.pid)) && StoredOnce(log, key.pid, q) {
      EachSequenceOnce(log, key.pid, q);
    }
    EachSequenceOnce(log, key.pid, 0);
    DecisionIs(s, key, NextSequence(log, key.pid));
  }

  /** After an accepted batch, exactly-once goes on if and only if the batch counts
      a record and leaves room for the next number. */
  lemma AcceptedOnceIff(s: State, at: Place, batch: Bytes)
    requires Agrees(s) && |batch| >= HeaderSize && Accepted(s, at, batch)
    ensures OnceOn(Produce(s, at, batch).0, Key(Pid(batch), at.topic, at.partition)) <==>
            RecordCount(batch) >= 1 && BaseSequence(batch) + RecordCount(batch) < TwoTo31
  {
    hide Pid, BaseSequence, RecordCount, Stamp, CheckSequence, Agrees, AgreesOn, OnceOn;
    var s', key := Produce(s, at, batch).0, Key(Pid(batch), at.topic, at.partition);
    if SequenceFits(batch) {
      ProduceAgrees(s, at, batch);
      AgreesHere(s', key);
      AgreesIsOnce(s', key);
    } else if OnceOn(s', key) {
      AgreesHere(s, key);
      UnfitBreaks(s, at, batch);
    }
  }

  lemma AgreesHere(s: State, key: Key)
    requires Agrees(s) && key.pid >= 0
    ensures AgreesOn(s, key)
  {}

  /** A batch without records is taken for a duplicate of the next one; a negative
      count goes back into stored numbers; too large a count wraps. */
  lemma UnfitBreaks(s: State, at: Place, batch: Bytes)
    requires |batch| >= HeaderSize && Accepted(s, at, batch) && !SequenceFits(batch)
    requires AgreesOn(s, Key(Pid(batch), at.topic, at.partition))
    ensures !OnceOn(Produce(s, at, batch).0, Key(Pid(batch), at.topic, at.partition))
  {
    hide Pid, BaseSequence, RecordCount, Stamp, Tiled, Counted, Stored, StoredOnce, Narrow;
    var key, s' := Key(Pid(batch), at.topic, at.partition), Produce(s, at, batch).0;
    var log, base, count := LogOf(s, at), BaseSequence(batch), RecordCount(batch);
    DecisionIs(s, key, base);
    EachSequenceOnce(log, key.pid, base + count);
    assert LogOf(s', Place(key.topic, key.partition)) == log + [Stamp(batch, |log|)];
    if count == 0 {
      NarrowIdentity(base - 1, TwoTo32);
      NarrowIdentity(base, TwoTo32);
    } else if count > 0 {
      WrapsTo(base + count - 1);
    } else if base + count - 1 < -TwoTo31 {
      WrapsTo(base + count - 1);
    } else {
      NarrowIdentity(base + count - 1, TwoTo32);
      StoredGrows(log, Stamp(batch, |log|), key.pid, base + count);
      assert NextExpected(s', key) == base + count;
    }
  }

  lemma WrapsTo(x: int)
    requires TwoTo31 - 1 <= x < TwoTo32 - 1 || x == -TwoTo31 - 1
    ensures Signed32(x) + 1 < 0 || Signed32(x) + 1 == TwoTo31
  {}

  lemma StoredGrows(log: seq<Bytes>, b: Bytes, pid: int, sequence: int)
    ensures Stored(log, pid, sequence) ==> Stored(log + [b], pid, sequence)
  {
    hide Covers;
    if Stored(log, pid, sequence) {
      var i :| 0 <= i < |log| && Covers(log[i], pid, sequence);
      assert (log + [b])[i] == log[i];
    }
  }

  // ----- whole runs -----

  datatype Op = Op(at: Place, batch: Bytes)

  predicate AllLong(ops: seq<Op>) {
    forall i :: 0 <= i < |ops| ==> |ops[i].batch| >= HeaderSize
  }

  function Run(ops: seq<Op>): State
    requires AllLong(ops)
  {
    if ops == [] then State(map[], map[])
    else Produce(Run(ops[..|ops| - 1]), ops[|ops| - 1].at, ops[|ops| - 1].batch).0
  }

  /** Batch k, if it is accepted, counts a record and leaves room. */
  predicate FitsAt(ops: seq<Op>, k: nat)
    requires AllLong(ops) && k < |ops|
  {
    Accepted(Run(ops[..k]), ops[k].at, ops[k].batch) ==> SequenceFits(ops[k].batch)
  }

  ghost predicate OnceAt(ops: seq<Op>, k: nat)
    requires AllLong(ops) && k <= |ops|
  {
    ExactlyOnce(Run(ops[..k]))
  }

  /** While the accepted batches fit: for each producer and partition, the stored
      batches tile the sequence numbers up to the last one, and the manager
      remembers the last stored batch at the offset where the log has it. */
  lemma {:induction false} RunAgrees(ops: seq<Op>, n: nat)
    requires AllLong(ops) && n <= |ops| && forall k :: 0 <= k < n ==> FitsAt(ops, k)
    ensures Agrees(Run(ops[..n]))
  {
    hide Pid, SequenceFits, Accepted, Produce, Tiled, Counted, LastStored;
    if n == 0 {
      forall key: Key ensures AgreesOn(Run([]), key) { NothingStored(key.pid); }
    } else {
      RunAgrees(ops, n - 1);
      assert ops[..n][..n - 1] == ops[..n - 1] && FitsAt(ops, n - 1);
      ProduceAgrees(Run(ops[..n - 1]), ops[n - 1].at, ops[n - 1].batch);
    }
  }

  /** Exactly once, for every run: it holds throughout if and only if every
      accepted batch counts a record and leaves room for the next number. */
  lemma {:induction false} ExactlyOnceIff(ops: seq<Op>, n: nat)
    requires AllLong(ops) && n <= |ops|
    ensures (forall k :: 0 <= k <= n ==> OnceAt(ops, k)) <==> (forall k :: 0 <= k < n ==> FitsAt(ops, k))
  {
    hide Pid, SequenceFits, Accepted, Produce, AgreesOn, OnceOn;
    if forall k :: 0 <= k < n ==> FitsAt(ops, k) {
      forall k | 0 <= k <= n ensures OnceAt(ops, k) {
        RunAgrees(ops, k);
        forall key: Key | key.pid >= 0 { AgreesIsOnce(Run(ops[..k]), key); }
      }
    } else if forall k :: 0 <= k <= n ==> OnceAt(ops, k) {
      ExactlyOnceIff(ops, n - 1);
      FirstUnfit(ops, n - 1);
    }
  }

  lemma FirstUnfit(ops: seq<Op>, k: nat)
    requires AllLong(ops) && k < |ops| && OnceAt(ops, k + 1) && forall i :: 0 <= i < k ==> FitsAt(ops, i)
    ensures FitsAt(ops, k)
  {
    hide Pid, BaseSequence, RecordCount, CheckSequence, Produce, AgreesOn, OnceOn;
    var s, at, batch := Run(ops[..k]), ops[k].at, ops[k].batch;
    assert ops[..k + 1][..k] == ops[..k];
    if Accepted(s, at, batch) {
      RunAgrees(ops, k);
      AcceptedOnceIff(s, at, batch);
      assert OnceOn(Run(ops[..k + 1]), Key(Pid(batch), at.topic, at.partition));
    }
  }

  lemma NothingStored(pid: int)
    ensures Tiled([], pid) && Counted([], pid) && LastStored([], pid) == None
  {}

  /** Resending the latest batch appends nothing and answers the offset at which
      the log really holds it. */
  lemma ResendLatest(s: State, at: Place, batch: Bytes)
    requires Agrees(s) && |batch| >= HeaderSize && Pid(batch) >= 0
    requires var key := Key(Pid(batch), at.topic, at.partition);
             key in s.seqs && BaseSequence(batch) == s.seqs[key].lastSequence - s.seqs[key].lastRecordCount + 1
    ensures var (s', check) := Produce(s, at, batch);
            && s' == s
            && check.decision == Duplicate
            && 0 <= check.cachedOffset < |LogOf(s, at)|
            && var held := LogOf(s, at)[check.cachedOffset];
               From(held, Pid(batch)) && BaseSequence(held) == BaseSequence(batch)
  {
    hide Pid, BaseSequence, RecordCount, Stamp, Narrow;
    var key := Key(Pid(batch), at.topic, at.partition);
    assert AgreesOn(s, key);
    var p := s.seqs[key];
    LastBaseFits(p, LogOf(s, at), key.pid);
    LastStoredIs(LogOf(s, at), key.pid);
  }

  lemma LastBaseFits(p: Progress, log: seq<Bytes>, pid: int)
    requires 0 <= p.lastSequence < TwoTo31 - 1 && 1 <= p.lastRecordCount && LastStored(log, pid) == Some(p)
    ensures Signed32(p.lastSequence - p.lastRecordCount + 1) == p.lastSequence - p.lastRecordCount + 1
  {
    hide Pid, BaseSequence, Narrow;
    LastStoredIs(log, pid);
    NarrowSmall(p.lastSequence, p.lastRecordCount);
  }

  lemma {:induction false} LastStoredIs(log: seq<Bytes>, pid: int)
    requires LastStored(log, pid).Some?
    ensures var p := LastStored(log, pid).value;
            && 0 <= p.lastBaseOffset < |log|
            && From(log[p.lastBaseOffset], pid)
            && RecordCount(log[p.lastBaseOffset]) == p.lastRecordCount
            && BaseSequence(log[p.lastBaseOffset]) == p.lastSequence - p.lastRecordCount + 1
            && IsInt32(p.lastRecordCount)
            && (forall i :: p.lastBaseOffset < i < |log| ==> !From(log[i], pid))
  {
    hide Pid, BaseSequence, RecordCount;
    var n := |log| - 1;
    if !From(log[n], pid) { LastStoredIs(log[..n], pid); }
  }

  /** A duplicate is answered with the offset of the batch that is being resent
      exactly when it starts where the latest one starts; an older one is
      answered with the offset of the latest. */
  lemma DuplicateOffsetIff(s: State, at: Place, batch: Bytes)
    requires Agrees(s) && |batch| >= HeaderSize && Pid(batch) >= 0
    requires Produce(s, at, batch).1.decision == Duplicate
    ensures var key, check := Key(Pid(batch), at.topic, at.partition), Produce(s, at, batch).1;
            && key in s.seqs && 0 <= check.cachedOffset < |LogOf(s, at)|
            && var held := LogOf(s, at)[check.cachedOffset];
               && From(held, Pid(batch))
               && (BaseSequence(held) == BaseSequence(batch) <==>
                   BaseSequence(batch) == s.seqs[key].lastSequence - s.seqs[key].lastRecordCount + 1)
  {
    hide Pid, BaseSequence, RecordCount, Stamp, Narrow, Tiled, Counted;
    var key := Key(Pid(batch), at.topic, at.partition);
    assert AgreesOn(s, key);
    LastStoredIs(LogOf(s, at), key.pid);
  }

  // ----- what an answer means -----

  /** The batch continues what the log holds of its producer, or names none. */
  predicate Continuation(log: seq<Bytes>, batch: Bytes)
    requires |batch| >= HeaderSize
  {
    Pid(batch) < 0 || BaseSequence(batch) == NextSequence(log, Pid(batch))
  }

  /** The log holds something of the producer, and the batch starts below its end. */
  predicate Repeats(log: seq<Bytes>, batch: Bytes)
    requires |batch| >= HeaderSize
  {
    Pid(batch) >= 0 && LastStored(log, Pid(batch)).Some? && BaseSequence(batch) < NextSequence(log, Pid(batch))
  }

  /** The producer's latest batch is at that offset. */
  ghost predicate LatestAt(log: seq<Bytes>, pid: int, offset: int) {
    0 <= offset < |log| && From(log[offset], pid) && forall i :: offset < i < |log| ==> !From(log[i], pid)
  }

  function KeyOf(at: Place, batch: Bytes): Key
    requires |batch| >= HeaderSize
  {
    Key(Pid(batch), at.topic, at.partition)
  }

  /** The memory of this batch's producer, if it names one, agrees with the log. */
  ghost predicate AgreesFor(s: State, at: Place, batch: Bytes)
    requires |batch| >= HeaderSize
  {
    Pid(batch) >= 0 ==> AgreesOn(s, KeyOf(at, batch))
  }

  /** Told from the log alone: what is appended and what is answered. */
  ghost predicate Told(log: seq<Bytes>, log': seq<Bytes>, batch: Bytes, check: Check)
    requires |batch| >= HeaderSize
  {
    if Continuation(log, batch) then log' == log + [Stamp(batch, |log|)] && check == Check(Append, |log|)
    else
      && log' == log
      && if Repeats(log, batch) then check.decision == Duplicate && LatestAt(log, Pid(batch), check.cachedOffset)
         else check.decision == OutOfOrder
  }

  lemma ProduceIs(s: State, at: Place, batch: Bytes)
    requires |batch| >= HeaderSize && AgreesFor(s, at, batch)
    ensures var (s', check) := Produce(s, at, batch);
            Told(LogOf(s, at), LogOf(s', at), batch, check) && (s' != s ==> Continuation(LogOf(s, at), batch))
  {
    hide Pid, BaseSequence, RecordCount, Stamp, Tiled, Counted, Narrow, After;
    if Pid(batch) >= 0 {
      DecisionIs(s, KeyOf(at, batch), BaseSequence(batch));
      if Repeats(LogOf(s, at), batch) {
        LastStoredIs(LogOf(s, at), Pid(batch));
        RepeatCached(s, KeyOf(at, batch), BaseSequence(batch));
      }
    }
  }

  lemma RepeatCached(s: State, key: Key, baseSeq: int)
    requires key in s.seqs && CheckSequence(s.seqs, key, baseSeq).decision == Duplicate
    ensures CheckSequence(s.seqs, key, baseSeq).cachedOffset == s.seqs[key].lastBaseOffset
  {}

  /** Every record of the batch is in the log. */
  ghost predicate AllStored(log: seq<Bytes>, batch: Bytes)
    requires |batch| >= HeaderSize
  {
    forall q :: BaseSequence(batch) <= q < BaseSequence(batch) + RecordCount(batch) ==> Stored(log, Pid(batch), q)
  }

  /** A success without an append means that every record of the batch is stored
      if and only if the batch starts at 0 or later and ends at or before the next
      number, or counts no record. */
  lemma DuplicateHeldIff(s: State, at: Place, batch: Bytes)
    requires |batch| >= HeaderSize && Pid(batch) >= 0 && AgreesOn(s, KeyOf(at, batch))
    requires Produce(s, at, batch).1.decision == Duplicate
    ensures Stored(LogOf(s, at), Pid(batch), BaseSequence(batch)) <==> BaseSequence(batch) >= 0
    ensures AllStored(LogOf(s, at), batch) <==>
            RecordCount(batch) <= 0 || (BaseSequence(batch) >= 0 &&
              BaseSequence(batch) + RecordCount(batch) <= NextSequence(LogOf(s, at), Pid(batch)))
  {
    hide Pid, BaseSequence, RecordCount, Stamp, Tiled, Counted, Stored, StoredOnce, NextSequence, LastStored, Produce;
    ProduceIs(s, at, batch);
    var log, pid, base, count := LogOf(s, at), Pid(batch), BaseSequence(batch), RecordCount(batch);
    forall q ensures Stored(log, pid, q) <==> 0 <= q < NextSequence(log, pid) { EachSequenceOnce(log, pid, q); }
    if count > 0 && AllStored(log, batch) { assert Stored(log, pid, base) && Stored(log, pid, base + count - 1); }
  }

  // ----- runs that break exactly-once -----

  /** A batch that the broker takes: a header without records, with these fields. */
  function RawBatch(pid: nat, baseSequence: int, recordCount: int, crc: Bytes -> nat): (b: Bytes)
    ensures |b| == HeaderSize
  {
    var checked := Zeros(22) + U64(pid % TwoTo64) + [0, 0] + U32(baseSequence % TwoTo32) + U32(recordCount % TwoTo32);
    Zeros(16) + [2] + U32(crc(checked) % TwoTo32) + checked
  }

  lemma RawFields(pid: nat, baseSequence: int, recordCount: int, crc: Bytes -> nat)
    requires pid < TwoTo63 && IsInt32(baseSequence) && IsInt32(recordCount)
    ensures var b := RawBatch(pid, baseSequence, recordCount, crc);
            Pid(b) == pid && BaseSequence(b) == baseSequence && RecordCount(b) == recordCount
  {
    hide U64, U32, GetBigEndian, Narrow, Zeros;
    var b := RawBatch(pid, baseSequence, recordCount, crc);
    assert b[43..51] == U64(pid % TwoTo64);
    assert b[53..57] == U32(baseSequence % TwoTo32) && b[57..61] == U32(recordCount % TwoTo32);
    U64RoundTrip(pid % TwoTo64);
    U32RoundTrip(baseSequence % TwoTo32);
    U32RoundTrip(recordCount % TwoTo32);
    NarrowMod(pid, TwoTo64);
    NarrowMod(baseSequence, TwoTo32);
    NarrowMod(recordCount, TwoTo32);
    NarrowIdentity(pid, TwoTo64);
    NarrowIdentity(baseSequence, TwoTo32);
    NarrowIdentity(recordCount, TwoTo32);
  }

  /** The broker's validation looks at neither the counts nor the length field:
      a valid batch need not be one that a follower can split off. */
  lemma RawIsValid(pid: nat, baseSequence: int, recordCount: int, crc: Bytes -> nat)
    requires forall x :: crc(x) < TwoTo32
    ensures var b := RawBatch(pid, baseSequence, recordCount, crc);
            ValidRecordBatch(b, crc) && TotalLength(b) < |b| && Split(Join([b])) != [b]
  {
    hide U64, U32, GetBigEndian;
    var b := RawBatch(pid, baseSequence, recordCount, crc);
    assert b[8..12] == U32(0) by { ZeroField(); }
    U32RoundTrip(0);
    U32RoundTrip(crc(b[21..]));
    assert Join([b]) + [] == Join([b]);
    SplitJoin([b], []);
    assert b in [b];
  }

  lemma ZeroField()
    ensures U32(0) == [0, 0, 0, 0]
  {}

  const Here := Place([116], 0)

  function Produces(fields: seq<(int, int)>, crc: Bytes -> nat): (ops: seq<Op>)
    ensures |ops| == |fields| && AllLong(ops)
  {
    seq(|fields|, i requires 0 <= i < |fields| => Op(Here, RawBatch(7, fields[i].0, fields[i].1, crc)))
  }

  /** The memory and the log of producer 7 after it was answered. */
  ghost predicate Reached(s: State, stored: seq<(int, int)>, last: Progress) {
    && Key(7, [116], 0) in s.seqs && s.seqs[Key(7, [116], 0)] == last
    && |LogOf(s, Here)| == |stored|
    && forall i :: 0 <= i < |stored| ==> Holds(LogOf(s, Here)[i], stored[i])
  }

  ghost predicate Holds(b: Bytes, fields: (int, int)) {
    From(b, 7) && BaseSequence(b) == fields.0 && RecordCount(b) == fields.1
  }

  lemma ReachedAt(s: State, stored: seq<(int, int)>, last: Progress, i: nat)
    requires Reached(s, stored, last) && i < |stored|
    ensures Key(7, [116], 0) in s.seqs && s.seqs[Key(7, [116], 0)] == last
    ensures |LogOf(s, Here)| == |stored| && Holds(LogOf(s, Here)[i], stored[i])
  {
    hide Holds;
  }

  lemma ProducesOne(s: State, stored: seq<(int, int)>, last: Progress, base: int, count: int, crc: Bytes -> nat)
    requires IsInt32(base) && IsInt32(count)
    requires if stored == [] then s == State(map[], map[]) && base == 0 else Reached(s, stored, last)
    requires stored == [] ||
             base == Signed32(last.lastSequence + 1) != Signed32(last.lastSequence - last.lastRecordCount + 1)
    ensures var after := Produce(s, Here, RawBatch(7, base, count, crc)).0;
            Reached(after, stored + [(base, count)], After(base, count, |stored|))
  {
    hide Pid, BaseSequence, RecordCount, RawBatch, Stamp, Narrow;
    var b := RawBatch(7, base, count, crc);
    RawFields(7, base, count, crc);
    StampKeepsFields(b, |LogOf(s, Here)|);
  }

  lemma RunNext(fields: seq<(int, int)>, crc: Bytes -> nat, k: nat)
    requires k < |fields|
    ensures Run(Produces(fields, crc)[..k + 1]) ==
            Produce(Run(Produces(fields, crc)[..k]), Here, RawBatch(7, fields[k].0, fields[k].1, crc)).0
  {
    hide Produce, RawBatch;
    var ops := Produces(fields, crc);
    assert ops[..k + 1][..k] == ops[..k];
  }

  /** A negative count, which no validation refuses: batch 0..9, then 10 with
      count -5, and 5..9 is taken again. */
  lemma NegativeCountStoresTwice(crc: Bytes -> nat)
    ensures var ops := Produces([(0, 10), (10, -5), (5, 5)], crc);
            var log := LogOf(Run(ops), Here);
            |log| == 3 && Covers(log[0], 7, 5) && Covers(log[2], 7, 5)
  {
    hide Produce, RawBatch, Run, BaseSequence, RecordCount, Pid, Reached;
    var fields := [(0, 10), (10, -5), (5, 5)];
    ThreeStored(fields, crc);
    var ops := Produces(fields, crc);
    assert ops[..3] == ops;
    ReachedAt(Run(ops), fields, After(5, 5, 2), 0);
    ReachedAt(Run(ops), fields, After(5, 5, 2), 2);
  }

  /** After 2147483647 the next number is -2147483648, and it is stored. */
  lemma OverflowStoresNegative(crc: Bytes -> nat)
    ensures var ops := Produces([(0, TwoTo31 - 1), (TwoTo31 - 1, 1), (-TwoTo31, 1)], crc);
            var log := LogOf(Run(ops), Here);
            |log| == 3 && Covers(log[2], 7, -TwoTo31)
  {
    hide Produce, RawBatch, Run, BaseSequence, RecordCount, Pid, Reached;
    var fields := [(0, TwoTo31 - 1), (TwoTo31 - 1, 1), (-TwoTo31, 1)];
    ThreeStored(fields, crc);
    var ops := Produces(fields, crc);
    assert ops[..3] == ops;
    ReachedAt(Run(ops), fields, After(-TwoTo31, 1, 2), 2);
  }

  /** Three batches that each pass the check are all stored. */
  lemma ThreeStored(fields: seq<(int, int)>, crc: Bytes -> nat)
    requires |fields| == 3 && fields[0].0 == 0
    requires forall i :: 0 <= i < 3 ==> IsInt32(fields[i].0) && IsInt32(fields[i].1)
    requires Continues(fields[0], fields[1]) && Continues(fields[1], fields[2])
    ensures Reached(Run(Produces(fields, crc)[..3]), fields, After(fields[2].0, fields[2].1, 2))
  {
    hide Produce, RawBatch, Reached, Continues;
    TwoStored(fields, crc);
    RunNext(fields, crc, 2);
    assert fields[..2] + [fields[2]] == fields;
    Continuing(fields[1], fields[2], 1);
    ProducesOne(Run(Produces(fields, crc)[..2]), fields[..2], After(fields[1].0, fields[1].1, 1),
                fields[2].0, fields[2].1, crc);
  }

  lemma OneStored(count: int, crc: Bytes -> nat)
    requires IsInt32(count)
    ensures var s := Run(Produces([(0, count)], crc)[..1]);
            && Reached(s, [(0, count)], After(0, count, 0))
            && LogOf(s, Here) == [Stamp(RawBatch(7, 0, count, crc), 0)]
  {
    hide RawBatch, Reached, Stamp, Pid, BaseSequence, RecordCount;
    RunNext([(0, count)], crc, 0);
    ProducesOne(State(map[], map[]), [], After(0, 0, 0), 0, count, crc);
    RawFields(7, 0, count, crc);
    assert [] + [(0, count)] == [(0, count)];
  }

  lemma TwoStored(fields: seq<(int, int)>, crc: Bytes -> nat)
    requires |fields| >= 2 && fields[0].0 == 0
    requires forall i :: 0 <= i < 2 ==> IsInt32(fields[i].0) && IsInt32(fields[i].1)
    requires Continues(fields[0], fields[1])
    ensures Reached(Run(Produces(fields, crc)[..2]), fields[..2], After(fields[1].0, fields[1].1, 1))
  {
    hide Produce, RawBatch, Reached, Continues;
    RunNext(fields, crc, 0);
    RunNext(fields, crc, 1);
    ProducesOne(State(map[], map[]), [], After(0, 0, 0), 0, fields[0].1, crc);
    assert [] + [(0, fields[0].1)] == [fields[0]] && [fields[0]] + [fields[1]] == fields[..2];
    Continuing(fields[0], fields[1], 0);
    ProducesOne(Run(Produces(fields, crc)[..1]), [fields[0]], After(0, fields[0].1, 0), fields[1].0, fields[1].1, crc);
  }

  /** The second batch is taken as the continuation of the first. */
  predicate Continues(a: (int, int), b: (int, int)) {
    var last := Signed32(a.0 + a.1 - 1);
    b.0 == Signed32(last + 1) != Signed32(last - a.1 + 1)
  }

  lemma Continuing(a: (int, int), b: (int, int), offset: int)
    requires Continues(a, b)
    ensures var p := After(a.0, a.1, offset);
            b.0 == Signed32(p.lastSequence + 1) != Signed32(p.lastSequence - p.lastRecordCount + 1)
  {}

  /** A batch without records: the batch that continues the sequence is then
      taken for a duplicate, and its records are stored nowhere. */
  lemma ZeroCountDropsNext(crc: Bytes -> nat)
    ensures var ops := Produces([(0, 10), (10, 0), (10, 5)], crc);
            |LogOf(Run(ops), Here)| == 2 && !Stored(LogOf(Run(ops), Here), 7, 10) && Run(ops) == Run(ops[..2])
  {
    hide Produce, RawBatch, Run, BaseSequence, RecordCount, Pid, Reached;
    var fields := [(0, 10), (10, 0), (10, 5)];
    var ops := Produces(fields, crc);
    TwoStored(fields, crc);
    RunNext(fields, crc, 2);
    assert ops[..3] == ops;
    ReachedAt(Run(ops[..2]), fields[..2], After(10, 0, 1), 0);
    ReachedAt(Run(ops[..2]), fields[..2], After(10, 0, 1), 1);
    TakenForDuplicate(Run(ops[..2]), After(10, 0, 1), 10, 5, crc);
  }

  /** The first of two batches is resent: it is answered with the offset of the second. */
  lemma OlderDuplicateAnswersLatest(crc: Bytes -> nat)
    ensures var s := Run(Produces([(0, 10), (10, 5)], crc));
            && |LogOf(s, Here)| == 2 && Holds(LogOf(s, Here)[0], (0, 10))
            && Produce(s, Here, RawBatch(7, 0, 10, crc)) == (s, Check(Duplicate, 1))
  {
    hide Produce, RawBatch, Run, BaseSequence, RecordCount, Pid, Reached;
    var fields := [(0, 10), (10, 5)];
    var ops := Produces(fields, crc);
    TwoStored(fields, crc);
    assert ops[..2] == ops && fields[..2] == fields;
    ReachedAt(Run(ops), fields, After(10, 5, 1), 0);
    OlderDuplicate(Run(ops), crc);
  }

  /** Record 0 is stored; a resend that brings records 0 and 1 succeeds, and record 1
      is stored nowhere.  So is a batch that starts at -1. */
  lemma DuplicateDropsRecords(crc: Bytes -> nat)
    ensures var s := Run(Produces([(0, 1)], crc));
            && Produce(s, Here, RawBatch(7, 0, 2, crc)) == (s, Check(Duplicate, 0))
            && Produce(s, Here, RawBatch(7, -1, 1, crc)) == (s, Check(Duplicate, 0))
            && !Stored(LogOf(s, Here), 7, 1) && !Stored(LogOf(s, Here), 7, -1)
  {
    hide Produce, RawBatch, Run, BaseSequence, RecordCount, Pid, Reached;
    var ops := Produces([(0, 1)], crc);
    OneStored(1, crc);
    assert ops[..1] == ops;
    var s := Run(ops);
    ReachedAt(s, [(0, 1)], After(0, 1, 0), 0);
    TakenForDuplicate(s, After(0, 1, 0), 0, 2, crc);
    NegativeDuplicate(s, crc);
  }

  lemma NegativeDuplicate(s: State, crc: Bytes -> nat)
    requires Key(7, [116], 0) in s.seqs && s.seqs[Key(7, [116], 0)] == After(0, 1, 0)
    ensures Produce(s, Here, RawBatch(7, -1, 1, crc)) == (s, Check(Duplicate, 0))
  {
    hide Pid, BaseSequence, RecordCount, RawBatch, Stamp;
    RawFields(7, -1, 1, crc);
  }

  lemma OlderDuplicate(s: State, crc: Bytes -> nat)
    requires Key(7, [116], 0) in s.seqs && s.seqs[Key(7, [116], 0)] == After(10, 5, 1)
    ensures Produce(s, Here, RawBatch(7, 0, 10, crc)) == (s, Check(Duplicate, 1))
  {
    hide Pid, BaseSequence, RecordCount, RawBatch, Stamp;
    RawFields(7, 0, 10, crc);
  }

  lemma TakenForDuplicate(s: State, last: Progress, base: int, count: int, crc: Bytes -> nat)
    requires Key(7, [116], 0) in s.seqs && s.seqs[Key(7, [116], 0)] == last
    requires IsInt32(base) && IsInt32(count) && base == Signed32(last.lastSequence - last.lastRecordCount + 1)
    ensures Produce(s, Here, RawBatch(7, base, count, crc)) == (s, Check(Duplicate, last.lastBaseOffset))
  {
    hide Pid, BaseSequence, RecordCount, RawBatch, Stamp, Narrow;
    RawFields(7, base, count, crc);
  }

  // ----- the object -----

  class Manager {
    var nextPID: int
    var seqs: map<Key, Progress>

    constructor ()
      ensures nextPID == 0 && seqs == map[]
    {
      nextPID, seqs := 0, map[];
    }

    method InitProducerID() returns (pid: int, epoch: int)
      modifies this`nextPID
      ensures pid == nextPID == Signed64(old(nextPID) + 1) && epoch == 0
    {
      nextPID := Signed64(nextPID + 1);
      pid, epoch := nextPID, 0;
    }

    /** Check, append and commit as one step.  The partition log and the memory
        move together exactly as Produce says. */
    method AppendBatch(at: Place, batch: Bytes, log: Log, ghost s: State) returns (check: Check)
      requires |batch| >= HeaderSize && |batch| < TwoTo32 && Pid(batch) >= 0
      requires log.Valid() && log.nextOffset < TwoTo63 - 1
      requires s.seqs == seqs && LogOf(s, at) == log.contents
      modifies this`seqs, log, log.segments
      ensures log.Valid()
      ensures var (s', c) := Produce(s, at, batch);
              check == c && seqs == s'.seqs && log.contents == LogOf(s', at)
      ensures AgreesFor(s, at, batch) ==> Told(old(log.contents), log.contents, batch, check)
    {
      hide LogModel.Holds, Told, AgreesFor, CheckSequence, Pid, BaseSequence, RecordCount, Stamp, After;
      if AgreesFor(s, at, batch) { ProduceIs(s, at, batch); }
      var key := Key(Pid(batch), at.topic, at.partition);
      check := CheckSequence(seqs, key, BaseSequence(batch));
      if check.decision != Append { return; }
      var baseOffset := log.AppendWithOffset(batch, true);
      seqs := seqs[key := After(BaseSequence(batch), RecordCount(batch), baseOffset)];
      check := Check(Append, baseOffset);
    }
  }
}
