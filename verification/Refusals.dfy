/** Which error the decoder answers a damaged frame with. */
module Refusals {
  import opened Paths
  import opened Wire
  import opened Radix
  import opened Messages
  import opened Fields
  import opened Codec
  import opened WireFormat
  import opened Streaming

  /** A length that was read off, whatever follows it. */
  lemma LengthRead(n: nat, rest: seq<byte>)
    requires IsU64(n)
    ensures ReadVarint(Leb(n) + rest) == Parsed(n, rest)
  {
    VarintIs(n, rest);
    VarintRoundTrip(n, rest);
  }

  /** A frame cut off anywhere, in its length or in its payload. */
  lemma Truncated(m: Message, limits: Limits, n: nat)
    requires LimitsOk(limits) && Representable(m) && WithinLimits(m, limits) && n < |FrameBytes(m)|
    ensures Decode(StreamOf(m), FrameBytes(m)[..n], limits) == Err(UnexpectedEof)
  {
    hide Representable, MessageBytes, ReadVarint, Leb;
    var payload, header := MessageBytes(m), Leb(|MessageBytes(m)|);
    var wire := FrameBytes(m)[..n];
    if n < |header| {
      assert wire == header[..n];
      CutLength(|payload|, n);
    } else {
      assert wire == header + payload[..n - |header|];
      LengthRead(|payload|, payload[..n - |header|]);
      PayloadIs(m);
    }
  }

  lemma CutLength(length: nat, n: nat)
    requires IsU64(length) && n < |Leb(length)|
    ensures ReadVarint(Leb(length)[..n]) == Bad(UnexpectedEof)
  {
    VarintIs(length, []);
    VarintLimitIsU64();
    CutVarint(length, n, 0);
    assert Leb(length) + [] == Leb(length);
  }

  lemma {:induction false} CutVarint(v: nat, n: nat, index: nat)
    requires index <= 9 && v < VarintLimit(index) && n < |PutVarint(v, [])|
    ensures ReadVarintFrom(PutVarint(v, [])[..n], index) == Bad(UnexpectedEof)
    decreases n
  {
    var wire := PutVarint(v, [])[..n];
    if n > 0 {
      CutVarint(v / 128, n - 1, index + 1);
      assert wire[1..] == PutVarint(v / 128, [])[..n - 1];
    }
  }

  /** A frame with something behind it. */
  lemma Trailing(m: Message, limits: Limits, extra: seq<byte>)
    requires LimitsOk(limits) && Representable(m) && WithinLimits(m, limits) && extra != []
    ensures Decode(StreamOf(m), FrameBytes(m) + extra, limits) == Err(TrailingBytes)
  {
    hide Representable, MessageBytes, ReadVarint, Leb;
    var payload := MessageBytes(m);
    assert FrameBytes(m) + extra == Leb(|payload|) + (payload + extra);
    LengthRead(|payload|, payload + extra);
    PayloadIs(m);
  }

  /** A declared length is judged before anything else is there. */
  lemma Declared(category: Category, n: nat, rest: seq<byte>, limits: Limits)
    requires IsU64(n) && (n > limits.maxFrame || n < 3)
    ensures Decode(category, Leb(n) + rest, limits) ==
            Err(if n > limits.maxFrame then FrameTooLarge(n, limits.maxFrame) else InvalidValue)
  {
    hide ReadVarint, Leb;
    LengthRead(n, rest);
  }

  /** Another version is refused whatever the message is. */
  lemma WrongVersion(category: Category, kind: byte, version: nat, fields: seq<byte>, limits: Limits)
    requires version < 0x1_0000 && version != 1 && LimitsOk(limits) && 3 + |fields| <= limits.maxFrame
    ensures
      Decode(category, Counted([kind, version % 0x100, version / 0x100] + fields), limits)
      == Err(UnsupportedVersion(version))
  {
    hide ReadVarint, Leb, ReadFixed;
    var payload := [kind, version % 0x100, version / 0x100] + fields;
    LengthRead(|payload|, payload);
    VersionRead(version, fields);
    assert payload[1..] == [version % 0x100, version / 0x100] + fields;
  }

  lemma VersionRead(version: nat, fields: seq<byte>)
    requires version < 0x1_0000
    ensures ReadFixed([version % 0x100, version / 0x100] + fields, 2) == Parsed(version, fields)
  {
    LeAre(version);
    FixedIs(version, 2, fields);
    PowersAre();
    FixedRoundTrip(version, 2, fields);
  }

  /** The kinds of each stream. */
  predicate KnownKind(category: Category, kind: byte) {
    match category
    case ControlStream => kind == 3 || kind == 7 || kind == 10 || kind == 11 || kind == 13 || kind == 15
    case IndexStream => kind == 1 || kind == 2
    case TransferStream => 1 <= kind <= 8
  }

  lemma UnknownKind(category: Category, kind: byte, fields: seq<byte>, limits: Limits)
    requires !KnownKind(category, kind) && LimitsOk(limits) && 3 + |fields| <= limits.maxFrame
    ensures Decode(category, Counted([kind, 1, 0] + fields), limits) == Err(UnknownMessageKind(kind))
  {
    hide ReadVarint, Leb, ReadFixed;
    var payload := [kind, 1, 0] + fields;
    LengthRead(|payload|, payload);
    VersionRead(1, fields);
    assert payload[1..] == [1, 0] + fields;
  }

  lemma {:induction false} HeaderError(category: Category, limits: Limits, header: seq<byte>, input: seq<byte>)
    requires Unfinished(header) && |header| <= MAX_VARINT_BYTES && ReadVarint(header + input).Parsed?
    requires CheckFrameLength(ReadVarint(header + input).value, limits).Some?
    ensures FeedAll(category, limits, Partial(header, None, []), input)
         == Err(CheckFrameLength(ReadVarint(header + input).value, limits).value)
    decreases |input|
  {
    hide DecodePayload, CheckFrameLength;
    assert header + [] == header;
    NeverEnds(header, 0);
    if |header| == MAX_VARINT_BYTES { TooLong(header + input, header, 0); }
    var next := header + [input[0]];
    assert header + input == next + input[1..];
    if input[0] >= 128 {
      HeaderError(category, limits, next, input[1..]);
    } else {
      HeaderEnds(header, input[0], 0, input[1..]);
    }
  }

  /** A complete frame is refused by the incremental decoder with the error the whole-frame decoder gives. */
  lemma SameError(category: Category, limits: Limits, wire: seq<byte>)
    requires ReadVarint(wire).Parsed? && |ReadVarint(wire).rest| == ReadVarint(wire).value
    requires Decode(category, wire, limits).Err?
    ensures FeedAll(category, limits, Idle, wire) == Err(Decode(category, wire, limits).error)
  {
    hide ReadVarint, CheckFrameLength, DecodePayload, FeedAll;
    var p := ReadVarint(wire);
    assert [] + wire == wire;
    if CheckFrameLength(p.value, limits).Some? {
      HeaderError(category, limits, [], wire);
    } else {
      var full := FeedHeader(category, limits, [], wire);
      assert [] + p.rest == p.rest;
      FeedWhole(category, limits, Partial(full, Some(p.value), []), p.rest);
    }
  }
}
