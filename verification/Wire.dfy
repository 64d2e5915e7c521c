/**
 * The primitive wire encodings. `PutX(v, rest)` is the encoding of `v` followed by `rest`;
 * `ReadX(b)` takes a value off the front of `b`. For every primitive the two are inverse, and
 * nothing but the one encoding is read.
 */
module Wire {
  import opened Paths

  datatype CodecError =
    | FrameTooLarge(declared: nat, maximum: nat)
    | VarintOverflow
    | NonCanonicalVarint
    | UnexpectedEof
    | TrailingBytes
    | UnknownMessageKind(kind: byte)
    | UnsupportedVersion(version: nat)
    | InvalidValue
    | LimitExceeded

  datatype Parsed<+T> = Parsed(value: T, rest: seq<byte>) | Bad(error: CodecError) {
    predicate IsFailure() { Bad? }
    function PropagateFailure<U>(): Parsed<U>
      requires Bad?
    {
      Bad(error)
    }
    function Extract(): (T, seq<byte>)
      requires Parsed?
    {
      (value, rest)
    }
  }

  datatype Limits = Limits(maxFrame: nat, maxPath: nat, maxComponents: nat)

  /** Little-endian integers of a fixed width. */
  function Pow256(k: nat): (r: nat)
    ensures r > 0
  {
    if k == 0 then 1 else 256 * Pow256(k - 1)
  }

  function PutFixed(n: nat, width: nat, rest: seq<byte>): (r: seq<byte>)
    ensures |r| == width + |rest|
  {
    if width == 0 then rest else [n % 256] + PutFixed(n / 256, width - 1, rest)
  }

  function ReadFixed(b: seq<byte>, width: nat): Parsed<nat> {
    if width == 0 then Parsed(0, b)
    else if b == [] then Bad(UnexpectedEof)
    else
      var (high, rest) :- ReadFixed(b[1..], width - 1);
      Parsed(b[0] + 256 * high, rest)
  }

  lemma {:induction false} FixedRoundTrip(n: nat, width: nat, rest: seq<byte>)
    requires n < Pow256(width)
    ensures ReadFixed(PutFixed(n, width, rest), width) == Parsed(n, rest)
  {
    if width > 0 {
      FixedRoundTrip(n / 256, width - 1, rest);
      assert PutFixed(n, width, rest)[1..] == PutFixed(n / 256, width - 1, rest);
    }
  }

  lemma {:induction false} FixedCanonical(b: seq<byte>, width: nat)
    requires ReadFixed(b, width).Parsed?
    ensures
      var p := ReadFixed(b, width);
      p.value < Pow256(width) && b == PutFixed(p.value, width, p.rest)
  {
    if width > 0 {
      FixedCanonical(b[1..], width - 1);
      assert b == [b[0]] + b[1..];
    }
  }

  const I128_HALF: int := 0x8000_0000_0000_0000_0000_0000_0000_0000

  predicate IsI128(v: int) { -I128_HALF <= v < I128_HALF }

  function PutI128(v: int, rest: seq<byte>): (r: seq<byte>)
    requires IsI128(v)
    ensures |r| == 16 + |rest|
  {
    PutFixed(if v < 0 then v + 2 * I128_HALF else v, 16, rest)
  }

  function ReadI128(b: seq<byte>): Parsed<int> {
    var (raw, rest) :- ReadFixed(b, 16);
    Parsed(if raw < I128_HALF then raw else raw - 2 * I128_HALF, rest)
  }

  lemma Pow256Sixteen()
    ensures Pow256(16) == 2 * I128_HALF
  {
    assert Pow256(4) == 0x1_0000_0000;
    assert Pow256(8) == 0x1_0000_0000_0000_0000;
    assert Pow256(12) == 0x1_0000_0000_0000_0000_0000_0000;
  }

  lemma I128RoundTrip(v: int, rest: seq<byte>)
    requires IsI128(v)
    ensures ReadI128(PutI128(v, rest)) == Parsed(v, rest)
  {
    Pow256Sixteen();
    FixedRoundTrip(if v < 0 then v + 2 * I128_HALF else v, 16, rest);
  }

  lemma I128Canonical(b: seq<byte>)
    requires ReadI128(b).Parsed?
    ensures var p := ReadI128(b); IsI128(p.value) && b == PutI128(p.value, p.rest)
  {
    Pow256Sixteen();
    FixedCanonical(b, 16);
  }

  /** What is left of u64 after `index` groups of seven bits. */
  function VarintLimit(index: nat): nat
    decreases 9 - index
  {
    if index >= 9 then 2 else 128 * VarintLimit(index + 1)
  }

  lemma VarintLimitIsU64()
    ensures VarintLimit(0) == 0x1_0000_0000_0000_0000
  {
  }

  function PutVarint(v: nat, rest: seq<byte>): (r: seq<byte>)
    ensures |r| > |rest|
  {
    if v < 128 then [v] + rest else [v % 128 + 128] + PutVarint(v / 128, rest)
  }

  /** `parse_varint` after `index` bytes. */
  function ReadVarintFrom(b: seq<byte>, index: nat): Parsed<nat>
    decreases 10 - index
  {
    if index >= 10 then Bad(VarintOverflow)
    else if b == [] then Bad(UnexpectedEof)
    else if index == 9 && b[0] > 1 then Bad(VarintOverflow)
    else if b[0] < 128 then
      if index > 0 && b[0] == 0 then Bad(NonCanonicalVarint) else Parsed(b[0], b[1..])
    else
      var (high, rest) :- ReadVarintFrom(b[1..], index + 1);
      Parsed(b[0] - 128 + 128 * high, rest)
  }

  function ReadVarint(b: seq<byte>): Parsed<nat> {
    ReadVarintFrom(b, 0)
  }

  lemma {:induction false} VarintRoundTripFrom(v: nat, rest: seq<byte>, index: nat)
    requires index <= 9 && v < VarintLimit(index) && (index > 0 ==> v > 0)
    ensures ReadVarintFrom(PutVarint(v, rest), index) == Parsed(v, rest)
    decreases 10 - index
  {
    if v >= 128 {
      VarintRoundTripFrom(v / 128, rest, index + 1);
      assert PutVarint(v, rest)[1..] == PutVarint(v / 128, rest);
    } else {
      assert PutVarint(v, rest)[1..] == rest;
    }
  }

  lemma {:induction false} VarintCanonicalFrom(b: seq<byte>, index: nat)
    requires ReadVarintFrom(b, index).Parsed?
    ensures
      var p := ReadVarintFrom(b, index);
      && index <= 9 && p.value < VarintLimit(index) && (index > 0 ==> p.value > 0)
      && b == PutVarint(p.value, p.rest)
    decreases 10 - index
  {
    assert b == [b[0]] + b[1..];
    if b[0] >= 128 {
      VarintCanonicalFrom(b[1..], index + 1);
    } else if index < 9 {
      LimitAtLeast(index);
    }
  }

  lemma {:induction false} LimitAtLeast(index: nat)
    requires index < 9
    ensures VarintLimit(index) >= 256
    decreases 9 - index
  {
    if index < 8 { LimitAtLeast(index + 1); }
  }

  predicate IsU64(v: nat) { v < 0x1_0000_0000_0000_0000 }

  /** Every u64 has one accepted encoding, the minimal one. */
  lemma VarintRoundTrip(v: nat, rest: seq<byte>)
    requires IsU64(v)
    ensures ReadVarint(PutVarint(v, rest)) == Parsed(v, rest)
  {
    VarintLimitIsU64();
    VarintRoundTripFrom(v, rest, 0);
  }

  lemma VarintCanonical(b: seq<byte>)
    requires ReadVarint(b).Parsed?
    ensures var p := ReadVarint(b); IsU64(p.value) && b == PutVarint(p.value, p.rest)
  {
    VarintLimitIsU64();
    VarintCanonicalFrom(b, 0);
  }

  /** Exactly `n` raw bytes. */
  function Take(b: seq<byte>, n: nat): Parsed<seq<byte>> {
    if n <= |b| then Parsed(b[..n], b[n..]) else Bad(UnexpectedEof)
  }

  lemma TakeRoundTrip(v: seq<byte>, rest: seq<byte>)
    ensures Take(v + rest, |v|) == Parsed(v, rest)
  {
  }

  lemma TakeCanonical(b: seq<byte>, n: nat)
    requires Take(b, n).Parsed?
    ensures var p := Take(b, n); |p.value| == n && b == p.value + p.rest
  {
  }

  function ReadLength(b: seq<byte>, maximum: nat): Parsed<nat> {
    var (length, rest) :- ReadVarint(b);
    if length > maximum then Bad(LimitExceeded) else Parsed(length, rest)
  }

  /** A length-prefixed byte string. */
  function PutBytes(v: seq<byte>, rest: seq<byte>): (r: seq<byte>)
    ensures |r| > |v| + |rest|
  {
    PutVarint(|v|, v + rest)
  }

  function ReadBytes(b: seq<byte>, maximum: nat): (r: Parsed<seq<byte>>)
    ensures r.Parsed? ==> |r.value| <= maximum
  {
    var (length, rest) :- ReadLength(b, maximum);
    Take(rest, length)
  }

  lemma BytesRoundTrip(v: seq<byte>, rest: seq<byte>, maximum: nat)
    requires |v| <= maximum && IsU64(maximum)
    ensures ReadBytes(PutBytes(v, rest), maximum) == Parsed(v, rest)
  {
    VarintRoundTrip(|v|, v + rest);
    TakeRoundTrip(v, rest);
  }

  lemma BytesCanonical(b: seq<byte>, maximum: nat)
    requires ReadBytes(b, maximum).Parsed?
    ensures var p := ReadBytes(b, maximum); |p.value| <= maximum && b == PutBytes(p.value, p.rest)
  {
    VarintCanonical(b);
    var length := ReadLength(b, maximum);
    TakeCanonical(length.rest, length.value);
  }
}
