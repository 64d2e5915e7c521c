/**
 * The incremental decoder, one byte at a time: what it holds between bytes, and why any way of
 * cutting a byte stream into chunks delivers the same messages.
 */
module Streaming {
  import opened Paths
  import opened Wire
  import opened Messages
  import opened Fields
  import opened Codec

  const MAX_VARINT_BYTES: nat := 10

  /** The header bytes seen, the declared payload length once known, and the payload so far. */
  datatype Partial = Partial(header: seq<byte>, expected: Option<nat>, payload: seq<byte>) {
    function Bytes(): seq<byte> { header + payload }
  }

  const Idle: Partial := Partial([], None, [])

  predicate Unfinished(header: seq<byte>) {
    forall i | 0 <= i < |header| :: header[i] >= 128
  }

  /** Everything the decoder may hold between bytes: the bound on what is buffered is part of it. */
  predicate Holds(s: Partial, limits: Limits) {
    && |s.header| <= MAX_VARINT_BYTES
    && match s.expected
       case None => s.payload == [] && Unfinished(s.header)
       case Some(n) =>
         && ReadVarint(s.header) == Parsed(n, [])
         && PREFIX <= n <= limits.maxFrame && |s.payload| < n
  }

  datatype Fed = Fed(state: Partial, messages: seq<Message>)

  /** A message delivered, if any, and what is held after one more byte. */
  function Feed(category: Category, limits: Limits, s: Partial, b: byte): (r: Coded<Fed>)
    requires Holds(s, limits)
    ensures r.Ok? ==> Holds(r.value.state, limits)
  {
    if s.expected.None? then
      if |s.header| == MAX_VARINT_BYTES then Err(VarintOverflow)
      else
        var header := s.header + [b];
        if b >= 128 then Ok(Fed(Partial(header, None, []), []))
        else
          var declared := ReadVarint(header);
          if declared.Bad? then Err(declared.error)
          else if CheckFrameLength(declared.value, limits).Some? then
            Err(CheckFrameLength(declared.value, limits).value)
          else
            HeaderEnds(s.header, b, 0, []);
            Ok(Fed(Partial(header, Some(declared.value), []), []))
    else
      var payload := s.payload + [b];
      if |payload| < s.expected.value then Ok(Fed(Partial(s.header, s.expected, payload), []))
      else
        var decoded := DecodePayload(category, payload, limits);
        if decoded.Err? then Err(decoded.error) else Ok(Fed(Idle, [decoded.value]))
  }

  function FeedAll(category: Category, limits: Limits, s: Partial, input: seq<byte>): (r: Coded<Fed>)
    requires Holds(s, limits)
    ensures r.Ok? ==> Holds(r.value.state, limits)
    decreases |input|
  {
    if input == [] then Ok(Fed(s, []))
    else
      var first := Feed(category, limits, s, input[0]);
      if first.Err? then first
      else Then(first.value.messages, FeedAll(category, limits, first.value.state, input[1..]))
  }

  /** Earlier messages in front of a later outcome. */
  function Then(messages: seq<Message>, later: Coded<Fed>): Coded<Fed> {
    if later.Err? then later else Ok(Fed(later.value.state, messages + later.value.messages))
  }

  lemma ThenThen(a: seq<Message>, b: seq<Message>, later: Coded<Fed>)
    ensures Then(a, Then(b, later)) == Then(a + b, later)
    ensures Then([], later) == later
  {
    if later.Ok? {
      assert a + (b + later.value.messages) == (a + b) + later.value.messages;
      assert [] + later.value.messages == later.value.messages;
    }
  }

  /** A varint ends at its first byte below 128; nothing after that byte matters. */
  lemma {:induction false} HeaderEnds(header: seq<byte>, last: byte, index: nat, tail: seq<byte>)
    requires Unfinished(header) && last < 128
    ensures
      var short := ReadVarintFrom(header + [last], index);
      var long := ReadVarintFrom(header + [last] + tail, index);
      if short.Bad? then long == Bad(short.error) else short.rest == [] && long == Parsed(short.value, tail)
    decreases |header|
  {
    var short := header + [last];
    var long := short + tail;
    if header == [] {
      assert long[1..] == tail;
    } else {
      HeaderEnds(header[1..], last, index + 1, tail);
      assert short[1..] == header[1..] + [last];
      assert long[1..] == header[1..] + [last] + tail;
    }
  }

  /** A varint that has not ended is not accepted, however long it is. */
  lemma {:induction false} NeverEnds(header: seq<byte>, index: nat)
    requires Unfinished(header)
    ensures ReadVarintFrom(header, index).Bad?
    decreases |header|
  {
    if header != [] { NeverEnds(header[1..], index + 1); }
  }

  lemma {:induction false} TooLong(b: seq<byte>, header: seq<byte>, index: nat)
    requires Unfinished(header) && header <= b && |header| + index >= MAX_VARINT_BYTES
    ensures ReadVarintFrom(b, index).Bad?
    decreases |header|
  {
    if header != [] && index < MAX_VARINT_BYTES { TooLong(b[1..], header[1..], index + 1); }
  }

  /** Cutting the input anywhere and feeding the pieces in turn changes nothing. */
  lemma {:induction false} FeedAppend(category: Category, limits: Limits, s: Partial, a: seq<byte>, b: seq<byte>)
    requires Holds(s, limits)
    ensures
      var first := FeedAll(category, limits, s, a);
      FeedAll(category, limits, s, a + b) ==
      if first.Err? then first
      else Then(first.value.messages, FeedAll(category, limits, first.value.state, b))
    decreases |a|
  {
    hide Feed, Holds;
    if a == [] {
      assert a + b == b;
      ThenThen([], [], FeedAll(category, limits, s, b));
    } else {
      var step := Feed(category, limits, s, a[0]);
      assert (a + b)[1..] == a[1..] + b;
      if step.Ok? {
        FeedAppend(category, limits, step.value.state, a[1..], b);
        var rest := FeedAll(category, limits, step.value.state, a[1..]);
        if rest.Ok? {
          ThenThen(step.value.messages, rest.value.messages, FeedAll(category, limits, rest.value.state, b));
        }
      }
    }
  }

  /** Payload bytes short of the declared length are only kept. */
  lemma FeedKept(category: Category, limits: Limits, s: Partial, b: byte)
    requires Holds(s, limits) && s.expected.Some? && |s.payload| + 1 < s.expected.value
    ensures
      var next := Partial(s.header, s.expected, s.payload + [b]);
      Holds(next, limits) && Feed(category, limits, s, b) == Ok(Fed(next, []))
  {
  }

  lemma {:induction false} FeedShort(category: Category, limits: Limits, s: Partial, input: seq<byte>)
    requires Holds(s, limits) && s.expected.Some? && |s.payload| + |input| < s.expected.value
    ensures FeedAll(category, limits, s, input) == Ok(Fed(Partial(s.header, s.expected, s.payload + input), []))
    decreases |input|
  {
    hide Holds, Feed;
    if input == [] {
      assert s.payload + input == s.payload;
    } else {
      FeedKept(category, limits, s, input[0]);
      var next := Partial(s.header, s.expected, s.payload + [input[0]]);
      FeedShort(category, limits, next, input[1..]);
      ThenThen([], [], FeedAll(category, limits, next, input[1..]));
      assert s.payload + [input[0]] + input[1..] == s.payload + input;
    }
  }

  /** What the last payload byte brings. */
  function Completed(category: Category, limits: Limits, payload: seq<byte>): Coded<Fed> {
    var decoded := DecodePayload(category, payload, limits);
    if decoded.Err? then Err(decoded.error) else Ok(Fed(Idle, [decoded.value]))
  }

  lemma FeedWhole(category: Category, limits: Limits, s: Partial, input: seq<byte>)
    requires Holds(s, limits) && s.expected.Some? && |s.payload| + |input| == s.expected.value
    ensures FeedAll(category, limits, s, input) == Completed(category, limits, s.payload + input)
  {
    hide DecodePayload;
    var n := |input| - 1;
    FeedShort(category, limits, s, input[..n]);
    FeedAppend(category, limits, s, input[..n], [input[n]]);
    assert input[..n] + [input[n]] == input;
    var held := Partial(s.header, s.expected, s.payload + input[..n]);
    assert held.payload + [input[n]] == s.payload + input;
    FeedOne(category, limits, held, input[n]);
    ThenThen([], [], FeedAll(category, limits, held, [input[n]]));
  }

  lemma FeedOne(category: Category, limits: Limits, s: Partial, b: byte)
    requires Holds(s, limits)
    ensures FeedAll(category, limits, s, [b]) == Feed(category, limits, s, b)
  {
    hide Holds, Feed;
    var step := Feed(category, limits, s, b);
    assert [b][1..] == [];
    if step.Ok? {
      assert FeedAll(category, limits, step.value.state, []) == Ok(Fed(step.value.state, []));
      assert step.value.messages + [] == step.value.messages;
    }
  }

  /** Feeding a whole, acceptable header leaves its length expected and the rest to be fed. */
  lemma {:induction false} FeedHeader(category: Category, limits: Limits, header: seq<byte>, input: seq<byte>)
    returns (full: seq<byte>)
    requires Unfinished(header) && |header| <= MAX_VARINT_BYTES && ReadVarint(header + input).Parsed?
    requires CheckFrameLength(ReadVarint(header + input).value, limits).None?
    ensures
      var p := ReadVarint(header + input);
      var s := Partial(full, Some(p.value), []);
      && Holds(s, limits) && full + p.rest == header + input
      && FeedAll(category, limits, Partial(header, None, []), input) == FeedAll(category, limits, s, p.rest)
    decreases |input|
  {
    hide DecodePayload;
    if input == [] {
      assert header + input == header;
      NeverEnds(header, 0);
      assert false;
    }
    if |header| == MAX_VARINT_BYTES {
      TooLong(header + input, header, 0);
      assert false;
    }
    var next := header + [input[0]];
    assert header + input == next + input[1..];
    var start := Partial(header, None, []);
    if input[0] >= 128 {
      full := FeedHeader(category, limits, next, input[1..]);
      ThenThen([], [], FeedAll(category, limits, Partial(next, None, []), input[1..]));
    } else {
      HeaderEnds(header, input[0], 0, input[1..]);
      full := next;
      var p := ReadVarint(header + input);
      ThenThen([], [], FeedAll(category, limits, Partial(full, Some(p.value), []), input[1..]));
    }
  }

  predicate Encodable(category: Category, limits: Limits, m: Message) {
    Representable(m) && CategoryOf(m) == category && Encode(m, limits).Ok?
  }

  predicate AllEncodable(category: Category, limits: Limits, messages: seq<Message>) {
    forall m | m in messages :: Encodable(category, limits, m)
  }

  function FrameOf(category: Category, limits: Limits, m: Message): seq<byte>
    requires Encodable(category, limits, m)
  {
    Encode(m, limits).value
  }

  /** The bytes a peer writes for these messages. */
  function Frames(category: Category, limits: Limits, messages: seq<Message>): seq<byte>
    requires AllEncodable(category, limits, messages)
  {
    if messages == [] then []
    else
      assert messages[0] in messages;
      FrameOf(category, limits, messages[0]) + Frames(category, limits, messages[1..])
  }

  lemma FeedFrame(category: Category, limits: Limits, m: Message)
    requires Encodable(category, limits, m) && LimitsOk(limits)
    ensures FeedAll(category, limits, Idle, FrameOf(category, limits, m)) == Ok(Fed(Idle, [m]))
  {
    hide Payload, DecodePayload, Representable, WriterAccepts, FeedAll, ReadVarint, PutVarint;
    var wire := FrameOf(category, limits, m);
    var payload := Payload(m);
    assert payload + [] == payload && [] + wire == wire && [] + payload == payload;
    VarintRoundTrip(|payload|, payload);
    var full := FeedHeader(category, limits, [], wire);
    FeedWhole(category, limits, Partial(full, Some(|payload|), []), payload);
    PayloadRoundTrip(m, limits);
  }

  /** The messages written come out, in order, with nothing left over. */
  lemma {:induction false} FeedFrames(category: Category, limits: Limits, messages: seq<Message>)
    requires AllEncodable(category, limits, messages) && LimitsOk(limits)
    ensures FeedAll(category, limits, Idle, Frames(category, limits, messages)) == Ok(Fed(Idle, messages))
  {
    hide Encode, FrameOf, Encodable, Feed;
    if messages != [] {
      assert Encodable(category, limits, messages[0]);
      var wire := FrameOf(category, limits, messages[0]);
      FeedFrame(category, limits, messages[0]);
      FeedFrames(category, limits, messages[1..]);
      FeedAppend(category, limits, Idle, wire, Frames(category, limits, messages[1..]));
      assert [messages[0]] + messages[1..] == messages;
    }
  }

  /** A frame is exactly the bytes held when its last byte arrives. */
  lemma FeedExact(category: Category, limits: Limits, s: Partial, b: byte)
    requires Holds(s, limits) && Feed(category, limits, s, b).Ok?
    ensures
      var fed := Feed(category, limits, s, b).value;
      && AllEncodable(category, limits, fed.messages)
      && s.Bytes() + [b] == Frames(category, limits, fed.messages) + fed.state.Bytes()
  {
    hide Payload, DecodePayload, Representable, WriterAccepts, ReadVarint, PutVarint;
    var fed := Feed(category, limits, s, b).value;
    if fed.messages == [] {
      assert s.header + s.payload + [b] == fed.state.header + fed.state.payload;
    } else {
      var payload := s.payload + [b];
      PayloadCanonical(category, payload, limits);
      VarintCanonical(s.header);
      VarintAppend(|payload|, [], payload);
      assert [] + payload == payload && payload + [] == payload;
      var wire := FrameOf(category, limits, fed.messages[0]);
      assert wire == s.header + payload;
      assert Frames(category, limits, fed.messages[1..]) == [];
      assert s.Bytes() + [b] == wire + [] + [];
    }
  }

  lemma {:induction false} VarintAppend(v: nat, a: seq<byte>, b: seq<byte>)
    ensures PutVarint(v, a + b) == PutVarint(v, a) + b
  {
    if v >= 128 {
      VarintAppend(v / 128, a, b);
      assert [v % 128 + 128] + (PutVarint(v / 128, a) + b) == [v % 128 + 128] + PutVarint(v / 128, a) + b;
    } else {
      assert [v] + (a + b) == [v] + a + b;
    }
  }

  lemma {:induction false} FramesAppend(category: Category, limits: Limits, a: seq<Message>, b: seq<Message>)
    requires AllEncodable(category, limits, a) && AllEncodable(category, limits, b)
    ensures AllEncodable(category, limits, a + b)
    ensures Frames(category, limits, a + b) == Frames(category, limits, a) + Frames(category, limits, b)
  {
    hide Encode, FrameOf, Encodable;
    if a == [] {
      assert a + b == b;
    } else {
      assert Encodable(category, limits, a[0]);
      FramesAppend(category, limits, a[1..], b);
      assert (a + b)[1..] == a[1..] + b;
      assert AllEncodable(category, limits, a + b);
      var wire := FrameOf(category, limits, a[0]);
      assert wire + (Frames(category, limits, a[1..]) + Frames(category, limits, b))
          == wire + Frames(category, limits, a[1..]) + Frames(category, limits, b);
    }
  }

  /** No byte is lost or invented: what went in is the delivered frames and what is still held. */
  lemma {:induction false} Accounted(category: Category, limits: Limits, s: Partial, input: seq<byte>)
    requires Holds(s, limits) && FeedAll(category, limits, s, input).Ok?
    ensures
      var fed := FeedAll(category, limits, s, input).value;
      && AllEncodable(category, limits, fed.messages)
      && s.Bytes() + input == Frames(category, limits, fed.messages) + fed.state.Bytes()
    decreases |input|
  {
    hide Holds, Feed, Encode, FrameOf, Encodable;
    if input == [] {
      assert s.Bytes() + input == s.Bytes() == [] + s.Bytes();
    } else {
      var first := Feed(category, limits, s, input[0]).value;
      var later := FeedAll(category, limits, first.state, input[1..]).value;
      FeedExact(category, limits, s, input[0]);
      Accounted(category, limits, first.state, input[1..]);
      FramesAppend(category, limits, first.messages, later.messages);
      RegroupBytes(s.Bytes(), input, Frames(category, limits, first.messages), first.state.Bytes(),
        Frames(category, limits, later.messages), later.state.Bytes());
    }
  }

  lemma RegroupBytes(held: seq<byte>, input: seq<byte>, a: seq<byte>, mid: seq<byte>, b: seq<byte>, end: seq<byte>)
    requires input != [] && held + [input[0]] == a + mid && mid + input[1..] == b + end
    ensures held + input == a + b + end
  {
    assert held + input == held + [input[0]] + input[1..];
    assert a + mid + input[1..] == a + (mid + input[1..]);
    assert a + (b + end) == a + b + end;
  }

  /**
   * A byte stream is accepted to its end exactly when it is the encoding of the messages it
   * delivers: nothing else is accepted, and every such encoding is.
   */
  lemma StreamCanonical(category: Category, limits: Limits, wire: seq<byte>, messages: seq<Message>)
    requires LimitsOk(limits)
    ensures FeedAll(category, limits, Idle, wire) == Ok(Fed(Idle, messages)) <==>
            AllEncodable(category, limits, messages) && wire == Frames(category, limits, messages)
  {
    hide Feed, FeedAll, Frames, AllEncodable;
    if FeedAll(category, limits, Idle, wire) == Ok(Fed(Idle, messages)) {
      Accounted(category, limits, Idle, wire);
      assert Idle.Bytes() == [] && [] + wire == wire;
      assert Frames(category, limits, messages) + [] == Frames(category, limits, messages);
    } else if AllEncodable(category, limits, messages) && wire == Frames(category, limits, messages) {
      FeedFrames(category, limits, messages);
    }
  }

  /** On one frame, the incremental decoder and the whole-frame decoder accept the same bytes. */
  lemma OneFrame(category: Category, limits: Limits, wire: seq<byte>, m: Message)
    requires LimitsOk(limits)
    ensures FeedAll(category, limits, Idle, wire) == Ok(Fed(Idle, [m])) <==> Decode(category, wire, limits) == Ok(m)
  {
    hide FeedAll, Decode, Encode, Representable;
    StreamCanonical(category, limits, wire, [m]);
    if AllEncodable(category, limits, [m]) && wire == Frames(category, limits, [m]) {
      assert m in [m] && [m][1..] == [] && FrameOf(category, limits, m) + [] == FrameOf(category, limits, m);
      EncodeDecode(m, limits);
    }
    if Decode(category, wire, limits) == Ok(m) {
      DecodeEncode(category, wire, limits);
      assert [m][1..] == [] && FrameOf(category, limits, m) + [] == FrameOf(category, limits, m);
    }
  }

  /** Header bytes that do not end the varint are kept. */
  lemma {:induction false} FeedUnfinished(category: Category, limits: Limits, header: seq<byte>, input: seq<byte>)
    requires Unfinished(header + input) && |header| + |input| <= MAX_VARINT_BYTES
    ensures Unfinished(header)
    ensures FeedAll(category, limits, Partial(header, None, []), input) == Ok(Fed(Partial(header + input, None, []), []))
    decreases |input|
  {
    hide ReadVarint, DecodePayload;
    assert forall i | 0 <= i < |header| :: header[i] == (header + input)[i];
    if input == [] {
      assert header + input == header;
    } else {
      var next := header + [input[0]];
      assert next + input[1..] == header + input && input[0] == (header + input)[|header|];
      FeedUnfinished(category, limits, next, input[1..]);
      ThenThen([], [], FeedAll(category, limits, Partial(next, None, []), input[1..]));
    }
  }

  /** An overlong header is refused by both decoders, but by the incremental one a byte later. */
  lemma OverlongHeader(category: Category, limits: Limits, header: seq<byte>, next: byte)
    requires Unfinished(header) && |header| == MAX_VARINT_BYTES
    ensures Decode(category, header, limits).Err?
    ensures FeedAll(category, limits, Idle, header) == Ok(Fed(Partial(header, None, []), []))
    ensures FeedAll(category, limits, Idle, header + [next]) == Err(VarintOverflow)
  {
    assert [] + header == header;
    NeverEnds(header, 0);
    FeedUnfinished(category, limits, [], header);
    FeedAppend(category, limits, Idle, header, [next]);
    FeedOne(category, limits, Partial(header, None, []), next);
  }
}
