/** The decoder object that buffers at most one frame, and the message queue over it. */
module DecoderModel {
  import opened Paths
  import opened Wire
  import opened Messages
  import opened Fields
  import opened Codec
  import opened Streaming
  import opened ReaderModel
  import opened Foreign

  class Decoder {
    const category: Category
    const limits: Limits
    const header: array<byte>
    var headerLen: nat
    var expected: Option<nat>
    var payload: seq<byte>

    ghost predicate Valid()
      reads this, header
    {
      header.Length == MAX_VARINT_BYTES && headerLen <= MAX_VARINT_BYTES && Holds(State(), limits)
    }

    ghost function State(): Partial
      requires headerLen <= header.Length
      reads this, header
    {
      Partial(header[..headerLen], expected, payload)
    }

    constructor (category: Category, limits: Limits)
      ensures Valid() && fresh(header) && State() == Idle
      ensures this.category == category && this.limits == limits
    {
      this.category := category;
      this.limits := limits;
      header := new byte[MAX_VARINT_BYTES](_ => 0);
      headerLen := 0;
      expected := None;
      payload := [];
    }

    /** At most ten header bytes and less than the declared payload, itself within the frame limit. */
    method BufferedLen() returns (n: nat)
      requires Valid()
      ensures n == |State().Bytes()|
      ensures State().expected.None? ==> n <= MAX_VARINT_BYTES
      ensures State().expected.Some? ==>
                State().expected.value <= limits.maxFrame && n < MAX_VARINT_BYTES + State().expected.value
    {
      n := headerLen + |payload|;
    }

    method Reset()
      requires header.Length == MAX_VARINT_BYTES
      modifies this
      ensures Valid() && State() == Idle
    {
      headerLen := 0;
      expected := None;
      payload := [];
    }

    /** One more header byte. */
    method HeaderByte(b: byte) returns (failed: Option<CodecError>)
      requires Valid() && expected.None?
      modifies this, header
      ensures Valid() && payload == []
      ensures
        var fed := Feed(category, limits, old(State()), b);
        if failed.Some? then fed == Err(failed.value) && State() == Idle else fed == Ok(Fed(State(), []))
    {
      hide ReadVarintFrom;
      if headerLen == MAX_VARINT_BYTES {
        Reset();
        return Some(VarintOverflow);
      }
      ghost var before := header[..headerLen];
      header[headerLen] := b;
      headerLen := headerLen + 1;
      assert header[..headerLen] == before + [b];
      if b < 128 {
        var declared := ParseVarint(header[..headerLen]);
        if declared.Err? {
          Reset();
          return Some(declared.error);
        }
        var refused := CheckFrameLength(declared.value.0, limits);
        if refused.Some? {
          Reset();
          return refused;
        }
        HeaderEnds(before, b, 0, []);
        expected := Some(declared.value.0);
      }
      return None;
    }

    /** As much payload as is wanted and available. */
    method TakePayload(input: seq<byte>) returns (rest: seq<byte>, messages: seq<Message>, failed: Option<CodecError>)
      requires Valid() && expected.Some?
      modifies this
      ensures Valid() && |rest| <= |input| && (input != [] ==> |rest| < |input|)
      ensures
        var fed := FeedAll(category, limits, old(State()), input);
        if failed.Some? then fed == Err(failed.value) && State() == Idle
        else fed == Then(messages, FeedAll(category, limits, State(), rest))
    {
      hide Feed, FeedAll, DecodePayload, ReadVarint;
      var needed := expected.value - |payload|;
      var take := if needed < |input| then needed else |input|;
      ghost var s := State();
      assert input == input[..take] + input[take..];
      FeedAppend(category, limits, s, input[..take], input[take..]);
      messages, failed, rest := [], None, input[take..];
      payload := payload + input[..take];
      if |payload| == expected.value {
        FeedWhole(category, limits, s, input[..take]);
        var decoded := DecodePayloadOf(category, payload, limits);
        Reset();
        if decoded.Err? { return rest, [], Some(decoded.error); }
        messages := [decoded.value];
      } else {
        FeedShort(category, limits, s, input[..take]);
      }
    }

    /**
     * The messages the input completes. On a failure the decoder starts afresh, and the
     * messages completed earlier in the same input are lost with it.
     */
    method Push(input: seq<byte>) returns (r: Coded<seq<Message>>)
      requires Valid()
      modifies this, header
      ensures Valid()
      ensures
        var fed := FeedAll(category, limits, old(State()), input);
        if fed.Err? then r == Err(fed.error) && State() == Idle
        else r == Ok(fed.value.messages) && State() == fed.value.state
    {
      hide Feed, Holds;
      ghost var whole := FeedAll(category, limits, State(), input);
      var rest, messages: seq<Message> := input, [];
      ThenThen([], [], whole);
      while rest != []
        invariant Valid()
        invariant whole == Then(messages, FeedAll(category, limits, State(), rest))
        decreases |rest|
      {
        ghost var s := State();
        if expected.None? {
          var b := rest[0];
          var failed := HeaderByte(b);
          if failed.Some? { return Err(failed.value); }
          ThenThen([], [], FeedAll(category, limits, State(), rest[1..]));
          rest := rest[1..];
        }
        if expected.Some? {
          ghost var first := FeedAll(category, limits, State(), rest);
          var remaining, completed, failed := TakePayload(rest);
          if failed.Some? { return Err(failed.value); }
          ThenThen(messages, completed, FeedAll(category, limits, State(), remaining));
          messages := messages + completed;
          rest := remaining;
        }
      }
      assert messages + [] == messages;
      return Ok(messages);
    }

    /** The end of the stream is accepted between frames only. */
    method Finish() returns (r: Coded<()>)
      requires Valid()
      ensures r == if State() == Idle then Ok(()) else Err(UnexpectedEof)
    {
      hide ReadVarint;
      if headerLen == 0 && payload == [] && expected.None? {
        return Ok(());
      }
      return Err(UnexpectedEof);
    }
  }

  /** A reliable byte stream: what is written is handed out in order, in pieces of any sizes. */
  class ByteStream {
    const sizes: nat -> nat
    var unread: seq<byte>
    var turn: nat

    constructor (sizes: nat -> nat)
      ensures unread == []
    {
      this.sizes, unread, turn := sizes, [], 0;
    }

    method Write(bytes: seq<byte>)
      modifies this
      ensures unread == old(unread) + bytes
    {
      unread := unread + bytes;
    }

    /** The next piece, or nothing once everything was handed out and the peer writes no more. */
    method Receive() returns (r: Option<seq<byte>>)
      modifies this
      ensures if old(unread) == [] then r == None && unread == []
              else r.Some? && r.value != [] && old(unread) == r.value + unread
    {
      if unread == [] { return None; }
      var n := 1 + sizes(turn);
      if n > |unread| { n := |unread|; }
      r, unread, turn := Some(unread[..n]), unread[n..], turn + 1;
    }
  }

  function Concat(chunks: seq<seq<byte>>): seq<byte> {
    if chunks == [] then [] else chunks[0] + Concat(chunks[1..])
  }

  datatype Received = Incoming(message: Message) | Closed | Malformed(error: CodecError)

  class MessageQueue {
    const decoder: Decoder
    var pending: seq<Message>

    ghost predicate Valid()
      reads this, decoder, decoder.header
    {
      decoder.Valid()
    }

    constructor (category: Category, limits: Limits)
      ensures Valid() && fresh(decoder) && fresh(decoder.header)
      ensures pending == [] && decoder.State() == Idle && decoder.category == category && decoder.limits == limits
    {
      decoder := new Decoder(category, limits);
      pending := [];
    }

    /** What is still to come: the queue, then what the rest of the stream completes. */
    ghost function Coming(stream: ByteStream): (r: Reading)
      requires Valid()
      reads this, decoder, decoder.header, stream
    {
      Before(pending, FeedUntil(decoder.category, decoder.limits, decoder.State(), stream.unread))
    }

    /** A bound on the messages still to come, whether or not the stream is well formed. */
    ghost function Outstanding(stream: ByteStream): nat
      reads this, stream
    {
      |pending| + |stream.unread|
    }

    /**
     * First in, first out, however the stream is cut: each call takes the first message still to
     * come. Only a stream with nothing more to come is reported closed. A refused frame may take
     * messages of its own piece with it, but never lets a later one through.
     */
    method Next(stream: ByteStream) returns (r: Received)
      requires Valid()
      modifies this, decoder, decoder.header, stream
      ensures Valid()
      ensures
        var coming := old(Coming(stream));
        && (r.Incoming? ==>
              && coming.messages != [] && r.message == coming.messages[0]
              && Coming(stream) == Reading(coming.messages[1..], coming.held))
        && (r.Malformed? ==> coming.held.None?)
        && (r.Closed? ==> coming.messages == [] && coming.held.Some?)
      ensures r.Incoming? ==> Outstanding(stream) < old(Outstanding(stream))
    {
      hide FeedAll, FeedUntil, Holds;
      ghost var coming := Coming(stream);
      while true
        invariant Valid() && Coming(stream) == coming && Outstanding(stream) <= old(Outstanding(stream))
        decreases |stream.unread|
      {
        if pending != [] {
          ghost var later := FeedUntil(decoder.category, decoder.limits, decoder.State(), stream.unread);
          assert (pending + later.messages)[1..] == pending[1..] + later.messages;
          r, pending := Incoming(pending[0]), pending[1..];
          return;
        }
        ghost var s := decoder.State();
        ghost var before := stream.unread;
        BeforeBefore([], [], FeedUntil(decoder.category, decoder.limits, s, before));
        var piece := stream.Receive();
        if piece.None? {
          NothingFed(decoder.category, decoder.limits, s);
          return Closed;
        }
        UntilAppend(decoder.category, decoder.limits, s, piece.value, stream.unread);
        UntilIsAll(decoder.category, decoder.limits, s, piece.value);
        var decoded := decoder.Push(piece.value);
        MessagesBounded(decoder.category, decoder.limits, s, piece.value);
        if decoded.Err? {
          return Malformed(decoded.error);
        }
        pending := pending + decoded.value;
        assert pending == decoded.value;
      }
    }
  }

  lemma NothingFed(category: Category, limits: Limits, s: Partial)
    requires Holds(s, limits)
    ensures FeedUntil(category, limits, s, []) == Reading([], Some(s))
  {
  }

  /** Every message takes at least the byte that completes it. */
  lemma {:induction false} MessagesBounded(category: Category, limits: Limits, s: Partial, input: seq<byte>)
    requires Holds(s, limits)
    ensures FeedAll(category, limits, s, input).Ok? ==> |FeedAll(category, limits, s, input).value.messages| <= |input|
    decreases |input|
  {
    hide DecodePayload, ReadVarint, Holds;
    if input != [] {
      var first := Feed(category, limits, s, input[0]);
      if first.Ok? { MessagesBounded(category, limits, first.value.state, input[1..]); }
    }
  }

  /** A peer's messages reach the queue whole and in order for every cut of their frames. */
  lemma AnyCut(category: Category, limits: Limits, messages: seq<Message>, chunks: seq<seq<byte>>)
    requires AllEncodable(category, limits, messages) && LimitsOk(limits)
    requires Concat(chunks) == Frames(category, limits, messages)
    ensures FeedAll(category, limits, Idle, Concat(chunks)) == Ok(Fed(Idle, messages))
    ensures PushAll(category, limits, Idle, chunks) == Ok(Fed(Idle, messages))
  {
    FeedFrames(category, limits, messages);
    PushesAreOneFeed(category, limits, Idle, chunks);
  }

  /** Push after push, as the caller of the decoder sees it. */
  function PushAll(category: Category, limits: Limits, s: Partial, chunks: seq<seq<byte>>): Coded<Fed>
    requires Holds(s, limits)
    decreases |chunks|
  {
    if chunks == [] then Ok(Fed(s, []))
    else
      var first := FeedAll(category, limits, s, chunks[0]);
      if first.Err? then first
      else Then(first.value.messages, PushAll(category, limits, first.value.state, chunks[1..]))
  }

  lemma {:induction false} PushesAreOneFeed(category: Category, limits: Limits, s: Partial, chunks: seq<seq<byte>>)
    requires Holds(s, limits)
    ensures PushAll(category, limits, s, chunks) == FeedAll(category, limits, s, Concat(chunks))
    decreases |chunks|
  {
    hide Feed, Holds;
    if chunks != [] {
      FeedAppend(category, limits, s, chunks[0], Concat(chunks[1..]));
      var first := FeedAll(category, limits, s, chunks[0]);
      if first.Ok? { PushesAreOneFeed(category, limits, first.value.state, chunks[1..]); }
    }
  }
}
