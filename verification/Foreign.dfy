/**
 * A reader with limits of its own. What a peer writes does not depend on anybody's limits; whether it
 * is read does, and the first message a reader cannot encode itself is where its reading ends.
 */
module Foreign {
  import opened Paths
  import opened Wire
  import opened Messages
  import opened Fields
  import opened Codec
  import opened Streaming

  /** The messages completed before the input ends or is refused, and what is held if it was not. */
  datatype Reading = Reading(messages: seq<Message>, held: Option<Partial>)

  function Before(messages: seq<Message>, later: Reading): Reading {
    Reading(messages + later.messages, later.held)
  }

  lemma BeforeBefore(a: seq<Message>, b: seq<Message>, later: Reading)
    ensures Before(a, Before(b, later)) == Before(a + b, later)
    ensures Before([], later) == later
  {
    assert a + (b + later.messages) == (a + b) + later.messages;
    assert [] + later.messages == later.messages;
  }

  function FeedUntil(category: Category, limits: Limits, s: Partial, input: seq<byte>): (r: Reading)
    requires Holds(s, limits)
    ensures r.held.Some? ==> Holds(r.held.value, limits)
    decreases |input|
  {
    if input == [] then Reading([], Some(s))
    else
      var first := Feed(category, limits, s, input[0]);
      if first.Err? then Reading([], None)
      else Before(first.value.messages, FeedUntil(category, limits, first.value.state, input[1..]))
  }

  /** What goes through goes through; what is refused is refused. */
  lemma {:induction false} UntilIsAll(category: Category, limits: Limits, s: Partial, input: seq<byte>)
    requires Holds(s, limits)
    ensures
      var fed, until := FeedAll(category, limits, s, input), FeedUntil(category, limits, s, input);
      if fed.Ok? then until == Reading(fed.value.messages, Some(fed.value.state)) else until.held.None?
    decreases |input|
  {
    hide Feed, Holds;
    if input != [] {
      var first := Feed(category, limits, s, input[0]);
      if first.Ok? { UntilIsAll(category, limits, first.value.state, input[1..]); }
    }
  }

  lemma {:induction false} UntilAppend(category: Category, limits: Limits, s: Partial, a: seq<byte>, b: seq<byte>)
    requires Holds(s, limits)
    ensures
      var first := FeedUntil(category, limits, s, a);
      FeedUntil(category, limits, s, a + b) ==
      if first.held.None? then first
      else Before(first.messages, FeedUntil(category, limits, first.held.value, b))
    decreases |a|
  {
    hide Feed, Holds;
    if a == [] {
      assert a + b == b;
      BeforeBefore([], [], FeedUntil(category, limits, s, b));
    } else {
      assert (a + b)[1..] == a[1..] + b;
      var step := Feed(category, limits, s, a[0]);
      if step.Ok? {
        UntilAppend(category, limits, step.value.state, a[1..], b);
        var rest := FeedUntil(category, limits, step.value.state, a[1..]);
        if rest.held.Some? {
          BeforeBefore(step.value.messages, rest.messages, FeedUntil(category, limits, rest.held.value, b));
        }
      }
    }
  }

  /** A header that declares too much, or too little, ends the reading. */
  lemma {:induction false} HeaderRefused(category: Category, limits: Limits, header: seq<byte>, input: seq<byte>)
    requires Unfinished(header) && |header| <= MAX_VARINT_BYTES && ReadVarint(header + input).Parsed?
    requires CheckFrameLength(ReadVarint(header + input).value, limits).Some?
    ensures FeedUntil(category, limits, Partial(header, None, []), input) == Reading([], None)
    decreases |input|
  {
    hide DecodePayload, CheckFrameLength;
    assert header + [] == header;
    NeverEnds(header, 0);
    if |header| == MAX_VARINT_BYTES { TooLong(header + input, header, 0); }
    var next := header + [input[0]];
    assert header + input == next + input[1..];
    if input[0] >= 128 {
      HeaderRefused(category, limits, next, input[1..]);
      BeforeBefore([], [], Reading([], None));
    } else {
      HeaderEnds(header, input[0], 0, input[1..]);
    }
  }

  /** A header that is accepted, whatever then becomes of the payload. */
  lemma HeaderAccepted(category: Category, limits: Limits, wire: seq<byte>) returns (full: seq<byte>)
    requires ReadVarint(wire).Parsed? && CheckFrameLength(ReadVarint(wire).value, limits).None?
    ensures
      var p := ReadVarint(wire);
      var s := Partial(full, Some(p.value), []);
      && Holds(s, limits)
      && FeedUntil(category, limits, Idle, wire) == FeedUntil(category, limits, s, p.rest)
  {
    hide DecodePayload, ReadVarint, CheckFrameLength;
    var p := ReadVarint(wire);
    assert [] + wire == wire;
    HeaderSplit(wire);
    var head := wire[..|wire| - |p.rest|];
    assert head + p.rest == wire && [] + head == head;
    full := FeedHeader(category, limits, [], head);
    var s := Partial(full, Some(p.value), []);
    EndHeld(category, limits, s);
    UntilIsAll(category, limits, Idle, head);
    UntilAppend(category, limits, Idle, head, p.rest);
    BeforeBefore([], [], FeedUntil(category, limits, s, p.rest));
  }

  lemma EndHeld(category: Category, limits: Limits, s: Partial)
    requires Holds(s, limits)
    ensures FeedAll(category, limits, s, []) == Ok(Fed(s, []))
  {
  }

  /** The header alone reads as the same length. */
  lemma HeaderSplit(wire: seq<byte>)
    requires ReadVarint(wire).Parsed?
    ensures
      var p := ReadVarint(wire);
      |p.rest| <= |wire| && wire[|wire| - |p.rest|..] == p.rest
      && ReadVarint(wire[..|wire| - |p.rest|]) == Parsed(p.value, [])
  {
    hide ReadVarintFrom, PutVarint;
    var p := ReadVarint(wire);
    VarintCanonical(wire);
    VarintAppend(p.value, [], p.rest);
    assert [] + p.rest == p.rest;
    VarintRoundTrip(p.value, []);
    assert wire == PutVarint(p.value, []) + p.rest;
    assert wire[..|wire| - |p.rest|] == PutVarint(p.value, []);
  }

  /** The messages before the first one these limits refuse. */
  function Readable(category: Category, limits: Limits, messages: seq<Message>): seq<Message> {
    if messages == [] || !Encodable(category, limits, messages[0]) then []
    else [messages[0]] + Readable(category, limits, messages[1..])
  }

  lemma {:induction false} AllReadable(category: Category, limits: Limits, messages: seq<Message>)
    ensures Readable(category, limits, messages) <= messages
    ensures Readable(category, limits, messages) == messages <==> AllEncodable(category, limits, messages)
  {
    hide Encodable;
    if messages != [] {
      assert messages == [messages[0]] + messages[1..];
      AllReadable(category, limits, messages[1..]);
    }
  }

  function Larger(a: nat, b: nat): nat {
    if a < b then b else a
  }

  /** Limits at least as wide as both. */
  function Wider(a: Limits, b: Limits): Limits {
    Limits(Larger(a.maxFrame, b.maxFrame), Larger(a.maxPath, b.maxPath), Larger(a.maxComponents, b.maxComponents))
  }

  /** A payload accepted under either of two limits decides its message. */
  lemma PayloadDecides(a: Limits, m: Message, b: Limits, m': Message)
    requires Representable(m) && WriterAccepts(m, a) && |Payload(m)| <= a.maxFrame && LimitsOk(a)
    requires Representable(m') && WriterAccepts(m', b) && LimitsOk(b)
    requires CategoryOf(m) == CategoryOf(m') && Payload(m) == Payload(m')
    ensures m == m'
  {
    hide Payload, DecodePayload, Representable;
    PayloadRoundTrip(m, Wider(a, b));
    PayloadRoundTrip(m', Wider(a, b));
  }

  /** Another peer's frame is read exactly when its message encodes under the reader's own limits. */
  lemma ForeignFrame(category: Category, a: Limits, b: Limits, m: Message)
    requires Encodable(category, a, m) && LimitsOk(a) && LimitsOk(b)
    ensures FeedUntil(category, b, Idle, FrameOf(category, a, m)) ==
            if Encodable(category, b, m) then Reading([m], Some(Idle)) else Reading([], None)
  {
    hide Payload, DecodePayload, Representable, WriterAccepts, FeedUntil, FeedAll, ReadVarint, PutVarint;
    var wire, payload := FrameOf(category, a, m), Payload(m);
    assert payload + [] == payload;
    VarintRoundTrip(|payload|, payload);
    if Encodable(category, b, m) {
      FeedFrame(category, b, m);
      UntilIsAll(category, b, Idle, wire);
    } else if CheckFrameLength(|payload|, b).Some? {
      assert [] + wire == wire;
      HeaderRefused(category, b, [], wire);
    } else {
      var full := HeaderAccepted(category, b, wire);
      PayloadRefused(category, a, b, m);
      LastByteRefused(category, b, Partial(full, Some(|payload|), []), payload);
    }
  }

  /** A payload of the right length is still refused unless its message encodes here. */
  lemma PayloadRefused(category: Category, a: Limits, b: Limits, m: Message)
    requires Encodable(category, a, m) && !Encodable(category, b, m) && LimitsOk(a) && LimitsOk(b)
    requires |Payload(m)| <= b.maxFrame
    ensures DecodePayload(category, Payload(m), b).Err?
  {
    hide Payload, DecodePayload, Representable, WriterAccepts;
    if DecodePayload(category, Payload(m), b).Ok? {
      PayloadCanonical(category, Payload(m), b);
      PayloadDecides(a, m, b, DecodePayload(category, Payload(m), b).value);
    }
  }

  /** All but the last byte of a refused payload is held; the last one ends the reading. */
  lemma LastByteRefused(category: Category, limits: Limits, s: Partial, payload: seq<byte>)
    requires Holds(s, limits) && s.expected == Some(|payload|) && s.payload == []
    requires DecodePayload(category, payload, limits).Err?
    ensures FeedUntil(category, limits, s, payload) == Reading([], None)
  {
    hide DecodePayload, ReadVarint, CheckFrameLength, FeedAll;
    var n := |payload| - 1;
    var front := payload[..n];
    FeedShort(category, limits, s, front);
    UntilIsAll(category, limits, s, front);
    assert [] + front == front && front + [payload[n]] == payload;
    UntilAppend(category, limits, s, front, [payload[n]]);
    BeforeBefore([], [], Reading([], None));
  }

  /**
   * Frames from another peer: every message is read up to the first that does not encode under the
   * reader's own limits, and there the reading ends.
   */
  lemma {:induction false} ForeignFrames(category: Category, a: Limits, b: Limits, messages: seq<Message>)
    requires AllEncodable(category, a, messages) && LimitsOk(a) && LimitsOk(b)
    ensures
      var readable := Readable(category, b, messages);
      FeedUntil(category, b, Idle, Frames(category, a, messages)) ==
      Reading(readable, if readable == messages then Some(Idle) else None)
  {
    hide Encodable, FrameOf, Feed;
    if messages != [] {
      assert messages[0] in messages;
      var first := FrameOf(category, a, messages[0]);
      var rest := Frames(category, a, messages[1..]);
      ForeignFrame(category, a, b, messages[0]);
      ForeignFrames(category, a, b, messages[1..]);
      UntilAppend(category, b, Idle, first, rest);
      assert messages == [messages[0]] + messages[1..];
    }
  }
}
