/**
 Kafka wire-protocol primitives: big-endian integers, strings, length-prefixed
 bytes, base-128 varints and arrays.

 The functions give the bytes of a value (`Int32Bytes`, `Uvarint`, ...) and
 what a reader takes from the front of its input (`TakeInt32`, `TakeUvarint`,
 ...).  The classes `Encoder` and `Decoder` are the buffers that the broker
 fills and drains; their methods are proved against those functions.
 */
module Wire {

  datatype Option<+T> = None | Some(value: T)

  type Byte = b: int | 0 <= b < 256
  type Bytes = seq<Byte>

  const TwoTo16 := 0x1_0000
  const TwoTo31 := 0x8000_0000
  const TwoTo32 := 0x1_0000_0000
  const TwoTo63 := 0x8000_0000_0000_0000
  const TwoTo64 := 0x1_0000_0000_0000_0000

  predicate IsInt32(v: int) { -TwoTo31 <= v < TwoTo31 }
  predicate IsInt64(v: int) { -TwoTo63 <= v < TwoTo63 }

  // Go's narrowing conversions int8(x), int16(x), int32(x), int64(x).
  function Narrow(x: int, modulus: nat): (r: int)
    requires modulus > 0
    ensures 0 <= 2 * r + modulus < 2 * modulus
  {
    var u := x % modulus;
    if 2 * u >= modulus then u - modulus else u
  }

  lemma NarrowIdentity(v: int, modulus: nat)
    requires 0 <= 2 * v + modulus < 2 * modulus
    ensures Narrow(v, modulus) == v
  {
    if v < 0 { SmallMod(v + modulus, modulus); WrapMod(v, modulus); } else { SmallMod(v, modulus); }
  }

  lemma SmallMod(u: nat, modulus: nat)
    requires u < modulus
    ensures u % modulus == u
  {}

  lemma WrapMod(v: int, modulus: nat)
    requires v < 0 <= v + modulus
    ensures v % modulus == (v + modulus) % modulus
  {}

  lemma NarrowMod(x: int, modulus: nat)
    requires modulus in {256, TwoTo16, TwoTo32, TwoTo64}
    ensures Narrow(x % modulus, modulus) == Narrow(x, modulus)
  {
    if modulus == 256 { assert x % 256 % 256 == x % 256; }
    else if modulus == TwoTo16 { assert x % TwoTo16 % TwoTo16 == x % TwoTo16; }
    else if modulus == TwoTo32 { assert x % TwoTo32 % TwoTo32 == x % TwoTo32; }
    else { assert x % TwoTo64 % TwoTo64 == x % TwoTo64; }
  }

  function Signed8(x: int): int { Narrow(x, 256) }
  function Signed16(x: int): int { Narrow(x, TwoTo16) }
  function Signed32(x: int): (r: int) ensures IsInt32(r) { Narrow(x, TwoTo32) }
  function Signed64(x: int): (r: int) ensures IsInt64(r) { Narrow(x, TwoTo64) }

  // ----- big-endian integers -----

  function Pow256(width: nat): nat {
    if width == 0 then 1 else 256 * Pow256(width - 1)
  }

  /** The low `width` bytes of n, most significant first. */
  function BigEndian(n: nat, width: nat): (b: Bytes)
    ensures |b| == width
  {
    if width == 0 then [] else BigEndian(n / 256, width - 1) + [n % 256]
  }

  function GetBigEndian(b: Bytes): nat {
    if b == [] then 0 else 256 * GetBigEndian(b[..|b| - 1]) + b[|b| - 1] as int
  }

  lemma {:induction false} BigEndianRoundTrip(n: nat, width: nat)
    requires n < Pow256(width)
    ensures GetBigEndian(BigEndian(n, width)) == n
  {
    if width > 0 {
      BigEndianRoundTrip(n / 256, width - 1);
      assert BigEndian(n, width)[..width - 1] == BigEndian(n / 256, width - 1);
    }
  }

  function U16(n: nat): (b: Bytes) ensures |b| == 2 { BigEndian(n, 2) }
  function U32(n: nat): (b: Bytes) ensures |b| == 4 { BigEndian(n, 4) }
  function U64(n: nat): (b: Bytes) ensures |b| == 8 { BigEndian(n, 8) }

  lemma U16RoundTrip(n: nat)
    requires n < TwoTo16
    ensures GetBigEndian(U16(n)) == n
  {
    BigEndianRoundTrip(n, 2);
  }

  lemma U32RoundTrip(n: nat)
    requires n < TwoTo32
    ensures GetBigEndian(U32(n)) == n
  {
    assert Pow256(2) == TwoTo16 && Pow256(4) == TwoTo32;
    BigEndianRoundTrip(n, 4);
  }

  lemma U64RoundTrip(n: nat)
    requires n < TwoTo64
    ensures GetBigEndian(U64(n)) == n
  {
    assert Pow256(2) == TwoTo16 && Pow256(4) == TwoTo32 && Pow256(6) == TwoTo16 * TwoTo32 && Pow256(8) == TwoTo64;
    BigEndianRoundTrip(n, 8);
  }

  // ----- reading from the front of the input -----

  /** What a read yields: a value and the input left over, or a failure. */
  datatype Parsed<+T> = Ok(value: T, rest: Bytes) | Err
  {
    predicate IsFailure() { Err? }

    function PropagateFailure<U>(): Parsed<U>
      requires Err?
    {
      Err
    }

    function Extract(): (T, Bytes)
      requires Ok?
    {
      (value, rest)
    }
  }

  /** io.ReadFull: exactly n bytes, or an error. */
  function Take(s: Bytes, n: nat): Parsed<Bytes> {
    if n <= |s| then Ok(s[..n], s[n..]) else Err
  }

  function Int8Bytes(v: int): Bytes { [v % 256] }
  function Int16Bytes(v: int): Bytes { U16(v % TwoTo16) }
  function Int32Bytes(v: int): Bytes { U32(v % TwoTo32) }
  function Int64Bytes(v: int): Bytes { U64(v % TwoTo64) }

  function TakeInt8(s: Bytes): Parsed<int> {
    var (b, rest) :- Take(s, 1);
    Ok(Signed8(b[0]), rest)
  }

  function TakeInt16(s: Bytes): Parsed<int> {
    var (b, rest) :- Take(s, 2);
    Ok(Signed16(GetBigEndian(b)), rest)
  }

  function TakeInt32(s: Bytes): (r: Parsed<int>)
    ensures r.Ok? ==> IsInt32(r.value)
  {
    var (b, rest) :- Take(s, 4);
    Ok(Signed32(GetBigEndian(b)), rest)
  }

  function TakeInt64(s: Bytes): Parsed<int> {
    var (b, rest) :- Take(s, 8);
    Ok(Signed64(GetBigEndian(b)), rest)
  }

  lemma Int8RoundTrip(v: int, rest: Bytes)
    ensures TakeInt8(Int8Bytes(v) + rest) == Ok(Signed8(v), rest)
  {
    assert (Int8Bytes(v) + rest)[..1] == Int8Bytes(v) && (Int8Bytes(v) + rest)[1..] == rest;
  }

  lemma Int16RoundTrip(v: int, rest: Bytes)
    ensures TakeInt16(Int16Bytes(v) + rest) == Ok(Signed16(v), rest)
  {
    hide U16, GetBigEndian, Narrow;
    U16RoundTrip(v % TwoTo16);
    NarrowMod(v, TwoTo16);
    var b := Int16Bytes(v);
    assert (b + rest)[..2] == b && (b + rest)[2..] == rest;
  }

  /** Every int32 survives; other integers come back narrowed. */
  lemma Int32RoundTrip(v: int, rest: Bytes)
    ensures TakeInt32(Int32Bytes(v) + rest) == Ok(Signed32(v), rest)
    ensures IsInt32(v) ==> Signed32(v) == v
  {
    hide U32, GetBigEndian, Narrow;
    U32RoundTrip(v % TwoTo32);
    NarrowMod(v, TwoTo32);
    if IsInt32(v) { NarrowIdentity(v, TwoTo32); }
    var b := Int32Bytes(v);
    assert (b + rest)[..4] == b && (b + rest)[4..] == rest;
  }

  lemma Int64RoundTrip(v: int, rest: Bytes)
    ensures TakeInt64(Int64Bytes(v) + rest) == Ok(Signed64(v), rest)
    ensures IsInt64(v) ==> Signed64(v) == v
  {
    hide U64, GetBigEndian, Narrow;
    U64RoundTrip(v % TwoTo64);
    NarrowMod(v, TwoTo64);
    if IsInt64(v) { NarrowIdentity(v, TwoTo64); }
    var b := Int64Bytes(v);
    assert (b + rest)[..8] == b && (b + rest)[8..] == rest;
  }

  // ----- strings and bytes -----

  /** INT16 length prefix, written as int16(len(s)), then the raw bytes. */
  function StringBytes(s: Bytes): Bytes {
    Int16Bytes(|s|) + s
  }

  function TakeString(s: Bytes): Parsed<Bytes> {
    var (n, rest) :- TakeInt16(s);
    if n < 0 then Err else Take(rest, n)
  }

  /** A string comes back, with the input after it, exactly when it is at most
      32767 bytes long: a longer one wraps the INT16 length. */
  lemma StringRoundTrip(s: Bytes, rest: Bytes)
    ensures TakeString(StringBytes(s) + rest) == Ok(s, rest) <==> |s| <= 32767
  {
    hide Int16Bytes, TakeInt16;
    assert StringBytes(s) + rest == Int16Bytes(|s|) + (s + rest);
    Int16RoundTrip(|s|, s + rest);
    assert (s + rest)[..|s|] == s && (s + rest)[|s|..] == rest;
  }

  /** INT32 length prefix, then the raw bytes; a nil slice is written as empty. */
  function BlobBytes(b: Bytes): Bytes {
    Int32Bytes(|b|) + b
  }

  /** A negative length reads as nil, which carries no bytes. */
  function TakeBlob(s: Bytes): Parsed<Bytes> {
    var (n, rest) :- TakeInt32(s);
    if n < 0 then Ok([], rest) else Take(rest, n)
  }

  lemma BlobRoundTrip(b: Bytes, rest: Bytes)
    requires |b| < TwoTo31
    ensures TakeBlob(BlobBytes(b) + rest) == Ok(b, rest)
  {
    hide Int32Bytes, TakeInt32, Narrow;
    assert BlobBytes(b) + rest == Int32Bytes(|b|) + (b + rest);
    Int32RoundTrip(|b|, b + rest);
    assert (b + rest)[..|b|] == b && (b + rest)[|b|..] == rest;
  }

  // ----- varints -----

  const MaxVarintBytes := 5

  /** Seven data bits a byte, least significant group first, top bit = more. */
  function Uvarint(v: nat): (b: Bytes)
    ensures |b| >= 1
  {
    if v >= 0x80 then [v % 128 + 128] + Uvarint(v / 128) else [v]
  }

  /** `budget` bytes may still be read; `weight` is 1 << shift.  The shifted
      group is truncated to 32 bits, and no lower bit of it is already set, so
      the source's bitwise-or into the result is an addition. */
  function TakeUvarintFrom(s: Bytes, budget: nat, weight: nat, result: nat): Parsed<nat>
    decreases budget
  {
    if budget == 0 then Err
    else
      var (b, rest) :- Take(s, 1);
      var result' := result + b[0] % 128 * weight % TwoTo32;
      if b[0] < 128 then Ok(result', rest)
      else TakeUvarintFrom(rest, budget - 1, weight * 128, result')
  }

  function TakeUvarint(s: Bytes): Parsed<nat> {
    TakeUvarintFrom(s, MaxVarintBytes, 1, 0)
  }

  function Weight(budget: nat): nat
    requires 1 <= budget <= MaxVarintBytes
  {
    match budget
    case 5 => 1
    case 4 => 0x80
    case 3 => 0x4000
    case 2 => 0x20_0000
    case _ => 0x1000_0000
  }

  /** The low group and the rest of v, weighed, make up v. */
  lemma GroupsAddUp(v: nat, weight: nat)
    ensures v % 128 * weight + v / 128 * (weight * 128) == v * weight
    ensures v % 128 * weight <= v * weight && v / 128 * (weight * 128) <= v * weight
  {
    var low, high := v % 128, v / 128;
    assert v == low + 128 * high;
    assert (low + 128 * high) * weight == low * weight + high * (weight * 128);
  }

  lemma BudgetSuffices(v: nat, budget: nat)
    requires 1 <= budget <= MaxVarintBytes && v * Weight(budget) < TwoTo32 && v >= 0x80
    ensures budget > 1 && Weight(budget - 1) == Weight(budget) * 128
  {}

  lemma TakeLast(low: nat, rest: Bytes, budget: nat, weight: nat, result: nat)
    requires low < 128 && budget > 0 && low * weight < TwoTo32
    ensures TakeUvarintFrom([low] + rest, budget, weight, result) == Ok(result + low * weight, rest)
  {
    assert ([low] + rest)[..1] == [low] && ([low] + rest)[1..] == rest;
  }

  lemma TakeMore(low: nat, tail: Bytes, budget: nat, weight: nat, result: nat)
    requires low < 128 && budget > 0 && low * weight < TwoTo32
    ensures TakeUvarintFrom([low + 128] + tail, budget, weight, result)
         == TakeUvarintFrom(tail, budget - 1, weight * 128, result + low * weight)
  {
    assert ([low + 128] + tail)[..1] == [low + 128] && ([low + 128] + tail)[1..] == tail;
    assert (low + 128) % 128 == low;
  }

  lemma {:induction false} UvarintRoundTripFrom(v: nat, budget: nat, weight: nat, result: nat, rest: Bytes)
    requires 1 <= budget <= MaxVarintBytes && weight == Weight(budget)
    requires v * weight < TwoTo32
    ensures |Uvarint(v)| <= budget
    ensures TakeUvarintFrom(Uvarint(v) + rest, budget, weight, result) == Ok(result + v * weight, rest)
  {
    hide TakeUvarintFrom, Weight;
    if v >= 0x80 {
      BudgetSuffices(v, budget);
      GroupsAddUp(v, weight);
      var low, high := v % 128, v / 128;
      calc {
        TakeUvarintFrom(Uvarint(v) + rest, budget, weight, result);
        { assert Uvarint(v) + rest == [low + 128] + (Uvarint(high) + rest); }
        TakeUvarintFrom([low + 128] + (Uvarint(high) + rest), budget, weight, result);
        { TakeMore(low, Uvarint(high) + rest, budget, weight, result); }
        TakeUvarintFrom(Uvarint(high) + rest, budget - 1, weight * 128, result + low * weight);
        { UvarintRoundTripFrom(high, budget - 1, weight * 128, result + low * weight, rest); }
        Ok(result + low * weight + high * (weight * 128), rest);
      }
      UvarintRoundTripFrom(high, budget - 1, weight * 128, result, rest);
    } else {
      TakeLast(v, rest, budget, weight, result);
    }
  }

  /** Every uint32 survives, in at most five bytes. */
  lemma UvarintRoundTrip(v: nat, rest: Bytes)
    requires v < TwoTo32
    ensures |Uvarint(v)| <= MaxVarintBytes
    ensures TakeUvarint(Uvarint(v) + rest) == Ok(v, rest)
  {
    UvarintRoundTripFrom(v, MaxVarintBytes, 1, 0, rest);
  }

  /** uint32((v << 1) ^ (v >> 31)): twice v, complemented when v is negative. */
  function Zigzag(v: int): nat
    requires IsInt32(v)
  {
    if v >= 0 then 2 * v else -2 * v - 1
  }

  /** int32(z >> 1) ^ -int32(z & 1) */
  function Unzigzag(z: nat): int {
    if z % 2 == 0 then Signed32(z / 2) else -Signed32(z / 2) - 1
  }

  function Varint(v: int): Bytes
    requires IsInt32(v)
  {
    Uvarint(Zigzag(v))
  }

  function TakeVarint(s: Bytes): Parsed<int> {
    var (z, rest) :- TakeUvarint(s);
    Ok(Unzigzag(z), rest)
  }

  /** Every int32 survives the zigzag varint, in at most five bytes. */
  lemma VarintRoundTrip(v: int, rest: Bytes)
    requires IsInt32(v)
    ensures |Varint(v)| <= MaxVarintBytes
    ensures TakeVarint(Varint(v) + rest) == Ok(v, rest)
  {
    hide Uvarint, TakeUvarint, Narrow;
    UvarintRoundTrip(Zigzag(v), rest);
    NarrowIdentity(Zigzag(v) / 2, TwoTo32);
  }

  // ----- arrays -----

  /** The items of an array, one after the other. */
  function Items<T>(write: T -> Bytes, xs: seq<T>): Bytes {
    if xs == [] then [] else Items(write, xs[..|xs| - 1]) + write(xs[|xs| - 1])
  }

  function TakeItems<T>(read: Bytes -> Parsed<T>, n: nat, s: Bytes): Parsed<seq<T>> {
    if n == 0 then Ok([], s)
    else
      var (xs, rest) :- TakeItems(read, n - 1, s);
      var (x, rest') :- read(rest);
      Ok(xs + [x], rest')
  }

  /** INT32 count, then the items. */
  function ArrayBytes<T>(write: T -> Bytes, xs: seq<T>): Bytes {
    Int32Bytes(|xs|) + Items(write, xs)
  }

  function TakeArray<T>(read: Bytes -> Parsed<T>, s: Bytes): Parsed<seq<T>> {
    var (n, rest) :- TakeInt32(s);
    if n < 0 then Err else TakeItems(read, n, rest)
  }

  /** Reading what was written for x yields y, whatever follows. */
  ghost predicate Reads<T, U>(write: T -> Bytes, read: Bytes -> Parsed<U>, x: T, y: U) {
    forall rest :: read(write(x) + rest) == Ok(y, rest)
  }

  lemma {:induction false} ItemsRoundTrip<T, U>(write: T -> Bytes, read: Bytes -> Parsed<U>, xs: seq<T>, ys: seq<U>,
                                                rest: Bytes)
    requires |xs| == |ys|
    requires forall i :: 0 <= i < |xs| ==> Reads(write, read, xs[i], ys[i])
    ensures TakeItems(read, |xs|, Items(write, xs) + rest) == Ok(ys, rest)
  {
    if xs != [] {
      var n := |xs| - 1;
      assert Items(write, xs) + rest == Items(write, xs[..n]) + (write(xs[n]) + rest);
      ItemsRoundTrip(write, read, xs[..n], ys[..n], write(xs[n]) + rest);
      assert Reads(write, read, xs[n], ys[n]);
      assert ys[..n] + [ys[n]] == ys;
    }
  }

  /** An array of readable items is readable. */
  lemma ArrayRoundTrip<T>(write: T -> Bytes, read: Bytes -> Parsed<T>, xs: seq<T>, rest: Bytes)
    requires |xs| < TwoTo31
    requires forall i :: 0 <= i < |xs| ==> Reads(write, read, xs[i], xs[i])
    ensures TakeArray(read, ArrayBytes(write, xs) + rest) == Ok(xs, rest)
  {
    assert ArrayBytes(write, xs) + rest == Int32Bytes(|xs|) + (Items(write, xs) + rest);
    Int32RoundTrip(|xs|, Items(write, xs) + rest);
    ItemsRoundTrip(write, read, xs, xs, rest);
  }

  /** Once an item cannot be read, the array cannot. */
  lemma {:induction false} StuckItems<T>(read: Bytes -> Parsed<T>, i: nat, n: nat, s: Bytes)
    requires i <= n && TakeItems(read, i, s).Err?
    ensures TakeItems(read, n, s).Err?
    decreases n
  {
    if i < n { StuckItems(read, i, n - 1, s); }
  }

  // ----- inputs that end early -----

  /** What a decoder makes of s and of its first k bytes: it leaves the end of s, looks at
      nothing that it leaves, and fails on an input that ends before that. */
  ghost predicate Cut<T>(s: Bytes, whole: Parsed<T>, k: nat, part: Parsed<T>)
    requires k <= |s|
  {
    whole.Ok? ==>
      && |whole.rest| <= |s|
      && var used := |s| - |whole.rest|;
         && whole.rest == s[used..]
         && if k < used then part.Err? else part == Ok(whole.value, s[used..k])
  }

  lemma TakeCut(s: Bytes, n: nat, k: nat)
    requires k <= |s|
    ensures Cut(s, Take(s, n), k, Take(s[..k], n))
    ensures Take(s, n).Ok? ==> |Take(s, n).value| == n
  {
    if n <= k { assert s[..k][..n] == s[..n] && s[..k][n..] == s[n..k]; }
  }

  /** What is left of a cut input is the cut of what is left. */
  lemma RestCut(s: Bytes, used: nat, k: nat)
    requires used <= k <= |s|
    ensures s[..k][used..] == s[used..k] == s[used..][..k - used]
  {}

  lemma IntCut(s: Bytes, k: nat)
    requires k <= |s|
    ensures Cut(s, TakeInt8(s), k, TakeInt8(s[..k])) && Cut(s, TakeInt16(s), k, TakeInt16(s[..k]))
    ensures Cut(s, TakeInt32(s), k, TakeInt32(s[..k])) && Cut(s, TakeInt64(s), k, TakeInt64(s[..k]))
  {
    hide Narrow, GetBigEndian;
    TakeCut(s, 1, k);
    TakeCut(s, 2, k);
    TakeCut(s, 4, k);
    TakeCut(s, 8, k);
  }

  /** How much of what a decoder leaves the cut still has. */
  function Left(s: Bytes, rest: Bytes, k: nat): nat {
    if |rest| <= |s| && k >= |s| - |rest| then k - (|s| - |rest|) else 0
  }

  ghost predicate Suffix(s: Bytes, rest: Bytes) { |rest| <= |s| && rest == s[|s| - |rest|..] }

  lemma CutBound<T>(s: Bytes, a: Parsed<T>, k: nat, a': Parsed<T>)
    requires k <= |s| && a.Ok? && Cut(s, a, k, a')
    ensures |a.rest| <= |s| && Suffix(s, a.rest) && (a'.Err? <==> k < |s| - |a.rest|)
  {}

  lemma CutFails<T>(s: Bytes, a: Parsed<T>, k: nat, a': Parsed<T>)
    requires k <= |s| && a.Err?
    ensures Cut(s, a, k, a')
  {}

  lemma CutEarlier<T>(s: Bytes, a: Parsed<T>, m: nat, a': Parsed<T>, k: nat)
    requires k <= m <= |s| && a.Ok? && Cut(s, a, m, a') && k < |s| - |a.rest|
    ensures Cut(s, a, k, Err)
  {}

  lemma CutFirst<T>(s: Bytes, a: Parsed<T>, k: nat, a': Parsed<T>)
    requires k <= |s| && a.Ok? && Cut(s, a, k, a') && a'.Ok?
    ensures var used := |s| - |a.rest|; 0 <= used <= k && a'.value == a.value && a'.rest == a.rest[..k - used]
  {
    RestCut(s, |s| - |a.rest|, k);
  }

  /** What is decoded from the end of s, seen from the whole of s. */
  lemma CutRest<U>(s: Bytes, rest: Bytes, b: Parsed<U>, j: nat, b': Parsed<U>)
    requires Suffix(s, rest) && j <= |rest| && b.Ok? && Cut(rest, b, j, b')
    ensures Cut(s, b, |s| - |rest| + j, b')
  {
    var used := |s| - |rest|;
    RestTwice(s, used, |s| - |b.rest|, used + j);
  }

  /** One decoder after another. */
  lemma CutThen<T, U>(s: Bytes, a: Parsed<T>, k: nat, a': Parsed<T>, b: Parsed<U>, b': Parsed<U>)
    requires k <= |s| && a.Ok? && Cut(s, a, k, a')
    requires |a.rest| <= |s| && Cut(a.rest, b, Left(s, a.rest, k), b')
    ensures Cut(s, b, k, if a'.Err? then Err else b')
    ensures a'.Ok? ==> a'.value == a.value && a'.rest == a.rest[..Left(s, a.rest, k)]
  {
    hide Cut, Suffix;
    CutBound(s, a, k, a');
    if a'.Ok? { CutFirst(s, a, k, a'); }
    if b.Err? { CutFails(s, b, k, if a'.Err? then Err else b'); }
    else { CutNext(s, a, k, a', b, b'); }
  }

  lemma CutNext<T, U>(s: Bytes, a: Parsed<T>, k: nat, a': Parsed<T>, b: Parsed<U>, b': Parsed<U>)
    requires k <= |s| && a.Ok? && |a.rest| <= |s| && Suffix(s, a.rest) && (a'.Err? <==> k < |s| - |a.rest|)
    requires b.Ok? && Cut(a.rest, b, Left(s, a.rest, k), b')
    ensures Cut(s, b, k, if a'.Err? then Err else b')
  {
    hide Cut, Suffix;
    var j := Left(s, a.rest, k);
    CutRest(s, a.rest, b, j, b');
    if a'.Err? {
      CutBound(a.rest, b, j, b');
      CutEarlier(s, b, |s| - |a.rest|, b', k);
    }
  }

  lemma RestTwice(s: Bytes, a: nat, b: nat, k: nat)
    requires a <= b <= |s| && a <= k <= |s|
    ensures s[a..][b - a..] == s[b..]
    ensures b <= k ==> s[a..][b - a..k - a] == s[b..k]
  {}

  /** The same bytes taken for another value. */
  lemma CutAs<T, U>(s: Bytes, a: Parsed<T>, k: nat, a': Parsed<T>, v: U)
    requires k <= |s| && a.Ok? && Cut(s, a, k, a')
    ensures Cut(s, Ok(v, a.rest), k, if a'.Err? then Err else Ok(v, a'.rest))
  {}

  lemma SameValue<T>(s: Bytes, a: Parsed<T>, k: nat, a': Parsed<T>)
    requires k <= |s| && a.Ok? && Cut(s, a, k, a')
    ensures a'.Ok? ==> a'.value == a.value
  {}

  lemma StringCut(s: Bytes, k: nat)
    requires k <= |s|
    ensures Cut(s, TakeString(s), k, TakeString(s[..k]))
  {
    hide TakeInt16, Take, Cut;
    IntCut(s, k);
    var n := TakeInt16(s);
    if n.Ok? && n.value >= 0 {
      CutBound(s, n, k, TakeInt16(s[..k]));
      var j := Left(s, n.rest, k);
      TakeCut(n.rest, n.value, j);
      CutThen(s, n, k, TakeInt16(s[..k]), Take(n.rest, n.value), Take(n.rest[..j], n.value));
    } else { CutFails(s, TakeString(s), k, TakeString(s[..k])); }
  }

  lemma {:induction false} UvarintCut(s: Bytes, budget: nat, weight: nat, result: nat, k: nat)
    requires k <= |s|
    ensures Cut(s, TakeUvarintFrom(s, budget, weight, result), k, TakeUvarintFrom(s[..k], budget, weight, result))
    decreases budget
  {
    hide Take;
    TakeCut(s, 1, k);
    var b := Take(s, 1);
    if budget > 0 && b.Ok? && b.value[0] >= 128 {
      var result', j := result + b.value[0] % 128 * weight % TwoTo32, Left(s, b.rest, k);
      UvarintCut(b.rest, budget - 1, weight * 128, result', j);
      CutThen(s, b, k, Take(s[..k], 1), TakeUvarintFrom(b.rest, budget - 1, weight * 128, result'),
              TakeUvarintFrom(b.rest[..j], budget - 1, weight * 128, result'));
    }
  }

  lemma VarintCut(s: Bytes, k: nat)
    requires k <= |s|
    ensures Cut(s, TakeVarint(s), k, TakeVarint(s[..k]))
  {
    hide TakeUvarintFrom, Unzigzag;
    UvarintCut(s, MaxVarintBytes, 1, 0, k);
  }

  ghost predicate CutsShort<T>(read: Bytes -> Parsed<T>) {
    forall s, k :: 0 <= k <= |s| ==> Cut(s, read(s), k, read(s[..k]))
  }

  lemma IntsCutShort()
    ensures CutsShort(TakeInt32)
  {
    hide TakeInt32, Cut;
    forall s, k | 0 <= k <= |s| { IntCut(s, k); }
  }

  lemma {:induction false} ItemsCut<T>(read: Bytes -> Parsed<T>, n: nat, s: Bytes, k: nat)
    requires k <= |s| && CutsShort(read)
    ensures Cut(s, TakeItems(read, n, s), k, TakeItems(read, n, s[..k]))
  {
    hide Cut, CutsShort;
    var r, r' := TakeItems(read, n, s), TakeItems(read, n, s[..k]);
    if n == 0 { CutNothing<seq<T>>(s, k, []); return; }
    ItemsCut(read, n - 1, s, k);
    var a, a' := TakeItems(read, n - 1, s), TakeItems(read, n - 1, s[..k]);
    if a.Err? { CutFails(s, r, k, r'); return; }
    CutBound(s, a, k, a');
    SameValue(s, a, k, a');
    var j := Left(s, a.rest, k);
    CutOne(read, a.rest, j);
    var b := read(a.rest);
    CutThen(s, a, k, a', b, read(a.rest[..j]));
    if b.Err? { CutFails(s, r, k, r'); return; }
    var b' := if a'.Err? then Err else read(a'.rest);
    SameValue(s, b, k, b');
    CutAs(s, b, k, b', a.value + [b.value]);
  }

  lemma CutNothing<T>(s: Bytes, k: nat, v: T)
    requires k <= |s|
    ensures Cut(s, Ok(v, s), k, Ok(v, s[..k]))
  {}

  lemma CutOne<T>(read: Bytes -> Parsed<T>, s: Bytes, k: nat)
    requires k <= |s| && CutsShort(read)
    ensures Cut(s, read(s), k, read(s[..k]))
  {}

  /** A decoded array looks at nothing behind it and fails on an input that ends early. */
  lemma ArrayCut<T>(read: Bytes -> Parsed<T>, s: Bytes, k: nat)
    requires k <= |s| && CutsShort(read)
    ensures Cut(s, TakeArray(read, s), k, TakeArray(read, s[..k]))
  {
    hide TakeInt32, TakeItems, CutsShort;
    IntCut(s, k);
    var n := TakeInt32(s);
    if n.Ok? && n.value >= 0 {
      var j := Left(s, n.rest, k);
      ItemsCut(read, n.value, n.rest, j);
      CutThen(s, n, k, TakeInt32(s[..k]), TakeItems(read, n.value, n.rest), TakeItems(read, n.value, n.rest[..j]));
    }
  }

  // ----- the buffers -----

  class Encoder {
    var buf: Bytes

    constructor ()
      ensures buf == []
    {
      buf := [];
    }

    method Write(b: Bytes)
      modifies this
      ensures buf == old(buf) + b
    {
      buf := buf + b;
    }

    method WriteUvarint(v: nat)
      modifies this
      ensures buf == old(buf) + Uvarint(v)
    {
      var v := v;
      ghost var v0, start := v, buf;
      while v >= 0x80
        invariant buf + Uvarint(v) == start + Uvarint(v0)
      {
        assert buf + Uvarint(v) == (buf + [v % 128 + 128]) + Uvarint(v / 128);
        buf := buf + [v % 128 + 128];
        v := v / 128;
      }
      buf := buf + [v];
    }
  }

  class Decoder {
    var input: Bytes

    constructor (s: Bytes)
      ensures input == s
    {
      input := s;
    }

    /** Consumes what the given read takes; an error leaves the input as it is. */
    method Read<T>(read: Bytes -> Parsed<T>) returns (r: Parsed<T>)
      modifies this
      ensures r == read(old(input))
      ensures input == if r.Ok? then r.rest else old(input)
    {
      r := read(input);
      if r.Ok? { input := r.rest; }
    }

    method ReadUvarint() returns (r: Parsed<nat>)
      modifies this
      ensures r == TakeUvarint(old(input))
      ensures r.Ok? ==> input == r.rest
    {
      var result: nat, weight: nat, i := 0, 1, 0;
      while i < MaxVarintBytes
        invariant 0 <= i <= MaxVarintBytes
        invariant TakeUvarint(old(input)) == TakeUvarintFrom(input, MaxVarintBytes - i, weight, result)
      {
        var b := Read(s => Take(s, 1));
        if b.Err? { return Err; }
        result := result + b.value[0] % 128 * weight % TwoTo32;
        if b.value[0] < 128 { return Ok(result, input); }
        weight := weight * 128;
        i := i + 1;
      }
      return Err;
    }
  }

  /** WriteArrayLen, then one write per item. */
  method WriteArray<T>(e: Encoder, write: T -> Bytes, xs: seq<T>)
    modifies e
    ensures e.buf == old(e.buf) + ArrayBytes(write, xs)
  {
    e.Write(Int32Bytes(|xs|));
    ghost var start := e.buf;
    for i := 0 to |xs|
      invariant e.buf == start + Items(write, xs[..i])
    {
      assert xs[..i + 1][..i] == xs[..i];
      e.Write(write(xs[i]));
    }
    assert xs[..|xs|] == xs;
  }

  /** ReadArrayLen, then one read per item, up to the first that fails. */
  method ReadArray<T>(d: Decoder, read: Bytes -> Parsed<T>) returns (r: Parsed<seq<T>>)
    modifies d
    ensures r == TakeArray(read, old(d.input))
    ensures r.Ok? ==> d.input == r.rest
  {
    hide TakeInt32;
    var count := d.Read(TakeInt32);
    if count.Err? || count.value < 0 { return Err; }
    ghost var s := d.input;
    var xs: seq<T> := [];
    for i := 0 to count.value
      invariant TakeItems(read, i, s) == Ok(xs, d.input)
    {
      var x := d.Read(read);
      if x.Err? {
        StuckItems(read, i + 1, count.value, s);
        return Err;
      }
      xs := xs + [x.value];
    }
    return Ok(xs, d.input);
  }
}
