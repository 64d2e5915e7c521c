/** File content in chunks over a byte stream, with an explicit end, and what arrives of it. */
module Transfer {
  import opened Paths
  import opened Wire
  import opened Radix
  import opened Messages
  import opened Fields
  import opened Codec
  import opened Streaming
  import opened Sending
  import opened DecoderModel
  import opened Foreign

  /** What a channel hands a blocking reader. */
  datatype Chunk = Data(bytes: seq<byte>) | LastChunk

  /** The bytes before the first end marker. */
  function UpToEnd(chunks: seq<Chunk>): seq<byte> {
    if chunks == [] || chunks[0].LastChunk? then [] else chunks[0].bytes + UpToEnd(chunks[1..])
  }

  predicate Marked(chunks: seq<Chunk>) {
    chunks != [] && (chunks[0].LastChunk? || Marked(chunks[1..]))
  }

  datatype ReadResult = Got(bytes: seq<byte>) | WithoutMarker

  /** A reader over a channel of chunks; the channel ends when its sender goes away. */
  class Input {
    var rx: seq<Chunk>
    var current: seq<byte>
    var ended: bool

    constructor (rx: seq<Chunk>)
      ensures this.rx == rx && current == [] && !ended
    {
      this.rx, current, ended := rx, [], false;
    }

    /** What is still to be read. */
    ghost function Left(): seq<byte>
      reads this
    {
      current + (if ended then [] else UpToEnd(rx))
    }

    ghost predicate Ends()
      reads this
    {
      ended || Marked(rx)
    }

    /**
     * Up to `size` bytes, in order. An empty answer to a non-empty request means that the marker
     * arrived and nothing is left; a channel that closed without its marker is an error.
     */
    method Read(size: nat) returns (r: ReadResult)
      modifies this
      ensures r.Got? ==> |r.bytes| <= size && old(Left()) == r.bytes + Left() && Ends() == old(Ends())
      ensures r.Got? && r.bytes == [] && size > 0 ==> old(Ends()) && Left() == []
      ensures r.WithoutMarker? ==> !old(Ends())
    {
      if size == 0 { return Got([]); }
      ghost var left, ends := Left(), Ends();
      while true
        invariant Left() == left && Ends() == ends
        decreases |rx|, !ended
      {
        var n := if size < |current| then size else |current|;
        if n != 0 || ended {
          r := Got(current[..n]);
          Split(current, n, if ended then [] else UpToEnd(rx));
          current := current[n..];
          return;
        }
        if rx == [] { return WithoutMarker; }
        match rx[0] {
          case Data(bytes) => current := bytes;
          case LastChunk => ended := true;
        }
        rx := rx[1..];
      }
    }
  }

  lemma Split(s: seq<byte>, n: nat, later: seq<byte>)
    requires n <= |s|
    ensures s + later == s[..n] + (s[n..] + later)
  {
  }

  /**
   * `io::copy` into a staged file, whatever sizes it asks for: all the bytes before the marker,
   * or nothing at all when there is no marker.
   */
  method CopyAll(chunks: seq<Chunk>, sizes: nat -> nat) returns (staged: Option<seq<byte>>)
    requires forall k :: sizes(k) > 0
    ensures staged == if Marked(chunks) then Some(UpToEnd(chunks)) else None
  {
    var input := new Input(chunks);
    ghost var ends := input.Ends();
    var copied: seq<byte> := [];
    var k := 0;
    assert copied + input.Left() == UpToEnd(chunks);
    while true
      invariant copied + input.Left() == UpToEnd(chunks) && input.Ends() == ends == Marked(chunks)
      decreases |input.Left()|
    {
      var r := input.Read(sizes(k));
      if r.WithoutMarker? { return None; }
      if r.bytes == [] {
        assert copied + [] == copied;
        return Some(copied);
      }
      Appended(copied, r.bytes, input.Left());
      copied := copied + r.bytes;
      k := k + 1;
    }
  }

  lemma Appended(a: seq<byte>, b: seq<byte>, c: seq<byte>)
    ensures a + (b + c) == (a + b) + c
  {
  }

  /** How much the k-th read returns when `left` bytes are left. */
  function PieceLength(left: nat, size: nat, bound: nat): (m: nat)
    requires left > 0 && size > 0 && bound > 0
    ensures 0 < m <= left && m <= size && m <= bound && (m == left || m == size || m == bound)
  {
    var most := if size < left then size else left;
    if bound < most then bound else most
  }

  /** The chunks a content is read as: `short(k)` bounds the k-th read. */
  function Pieces(content: seq<byte>, size: nat, short: nat -> nat, k: nat): seq<seq<byte>>
    requires size > 0 && forall n :: short(n) > 0
    decreases |content|
  {
    if content == [] then []
    else
      var m := PieceLength(|content|, size, short(k));
      [content[..m]] + Pieces(content[m..], size, short, k + 1)
  }

  /** Non-empty chunks within the size. */
  predicate ChunksWithin(chunks: seq<seq<byte>>, size: nat) {
    forall c :: c in chunks ==> 0 < |c| <= size
  }

  lemma WithinFirst(first: seq<byte>, rest: seq<seq<byte>>, size: nat)
    requires 0 < |first| <= size && ChunksWithin(rest, size)
    ensures ChunksWithin([first] + rest, size)
  {
  }

  /** Non-empty chunks within the size, and the content when put together. */
  lemma {:induction false} PiecesFacts(content: seq<byte>, size: nat, short: nat -> nat, k: nat)
    requires size > 0 && forall n :: short(n) > 0
    ensures Concat(Pieces(content, size, short, k)) == content && |Pieces(content, size, short, k)| <= |content|
    ensures ChunksWithin(Pieces(content, size, short, k), size)
    decreases |content|
  {
    hide Concat, PieceLength, ChunksWithin;
    if content == [] {
      NothingJoined();
    } else {
      var m := PieceLength(|content|, size, short(k));
      var rest := Pieces(content[m..], size, short, k + 1);
      PiecesFacts(content[m..], size, short, k + 1);
      ConcatFirst(content[..m], rest);
      WithinFirst(content[..m], rest, size);
      assert content == content[..m] + content[m..];
    }
  }

  /** Each piece is all a read may give: what is left, up to the size and up to what this read returns. */
  lemma {:induction false} PieceAt(content: seq<byte>, size: nat, short: nat -> nat, k: nat, i: nat)
    requires size > 0 && (forall n :: short(n) > 0) && i < |Pieces(content, size, short, k)|
    ensures
      var pieces := Pieces(content, size, short, k);
      var left, m := |content| - |Concat(pieces[..i])|, |pieces[i]|;
      0 < m <= left && m <= size && m <= short(k + i) && (m == left || m == size || m == short(k + i))
  {
    if i > 0 {
      var first := content[..PieceLength(|content|, size, short(k))];
      var rest := content[|first|..];
      PieceAt(rest, size, short, k + 1, i - 1);
      var pieces := Pieces(content, size, short, k);
      assert pieces[..i][1..] == Pieces(rest, size, short, k + 1)[..i - 1];
    }
  }

  lemma NothingJoined()
    ensures Concat([]) == [] && forall size :: ChunksWithin([], size)
  {
  }

  lemma ConcatFirst(first: seq<byte>, rest: seq<seq<byte>>)
    ensures Concat([first] + rest) == first + Concat(rest)
  {
    assert ([first] + rest)[1..] == rest;
  }

  /**
   * `produce`: the content in chunks, whatever short reads the reader makes. The consumer takes `quota`
   * chunks and then closes, which fails the transfer if more was to come.
   */
  method Produce(content: seq<byte>, size: nat, short: nat -> nat, quota: nat)
    returns (chunks: seq<seq<byte>>, ok: bool)
    requires size > 0 && forall k :: short(k) > 0
    ensures
      var pieces := Pieces(content, size, short, 0);
      ok == (|pieces| <= quota) && chunks == if ok then pieces else pieces[..quota]
  {
    hide PieceLength;
    chunks := [];
    var offset := 0;
    ghost var pieces := Pieces(content, size, short, 0);
    assert content[0..] == content;
    while offset < |content|
      invariant offset <= |content| && |chunks| <= quota
      invariant pieces == chunks + Pieces(content[offset..], size, short, |chunks|)
      decreases |content| - offset
    {
      var m := PieceLength(|content| - offset, size, short(|chunks|));
      assert content[offset..][..m] == content[offset..offset + m] && content[offset..][m..] == content[offset + m..];
      ghost var later := Pieces(content[offset + m..], size, short, |chunks| + 1);
      MoveFirst(chunks, content[offset..offset + m], later);
      if |chunks| == quota { return chunks, false; }
      chunks := chunks + [content[offset..offset + m]];
      offset := offset + m;
    }
    return chunks, true;
  }

  lemma MoveFirst(chunks: seq<seq<byte>>, first: seq<byte>, later: seq<seq<byte>>)
    ensures chunks + ([first] + later) == chunks + [first] + later
  {
  }

  /** The three byte streams a transfer carries, each with its own end. */
  datatype Flow = WholeFiles | Signatures | Deltas

  function Carry(flow: Flow, bytes: seq<byte>): Message {
    match flow
    case WholeFiles => WholeFile(bytes)
    case Signatures => Signature(bytes)
    case Deltas => Delta(bytes)
  }

  function EndOf(flow: Flow): Message {
    if flow.Signatures? then SignatureEnd else TransferEnd
  }

  function Carried(flow: Flow, m: Message): Option<seq<byte>> {
    match m
    case WholeFile(bytes) => if flow.WholeFiles? then Some(bytes) else None
    case Signature(bytes) => if flow.Signatures? then Some(bytes) else None
    case Delta(bytes) => if flow.Deltas? then Some(bytes) else None
    case _ => None
  }

  function CarryAll(flow: Flow, chunks: seq<seq<byte>>): seq<Message> {
    if chunks == [] then [EndOf(flow)] else [Carry(flow, chunks[0])] + CarryAll(flow, chunks[1..])
  }

  /** One message for each chunk, in order, of the kind that says what the chunk is of, and the end. */
  lemma {:induction false} FlowIs(flow: Flow, chunks: seq<seq<byte>>)
    ensures
      var messages := CarryAll(flow, chunks);
      && |messages| == |chunks| + 1
      && (forall i :: 0 <= i < |chunks| ==>
            messages[i] == match flow
                           case WholeFiles => WholeFile(chunks[i])
                           case Signatures => Signature(chunks[i])
                           case Deltas => Delta(chunks[i]))
      && messages[|chunks|] == match flow
                               case WholeFiles => TransferEnd
                               case Signatures => SignatureEnd
                               case Deltas => TransferEnd
  {
    if chunks != [] { FlowIs(flow, chunks[1..]); }
  }

  /** The bytes a message sequence delivers, provided it reaches its end. */
  function Delivery(flow: Flow, messages: seq<Message>): Option<seq<byte>> {
    if messages == [] then None
    else if messages[0] == EndOf(flow) then Some([])
    else if Carried(flow, messages[0]).None? then None
    else
      var later := Delivery(flow, messages[1..]);
      if later.None? then None else Some(Carried(flow, messages[0]).value + later.value)
  }

  /** What follows the end of a flow. */
  function After(flow: Flow, messages: seq<Message>): seq<Message> {
    if messages == [] then []
    else if messages[0] == EndOf(flow) then messages[1..]
    else After(flow, messages[1..])
  }

  lemma {:induction false} CarriedDelivers(flow: Flow, chunks: seq<seq<byte>>)
    ensures Delivery(flow, CarryAll(flow, chunks)) == Some(Concat(chunks))
    ensures After(flow, CarryAll(flow, chunks)) == []
  {
    if chunks != [] {
      CarriedDelivers(flow, chunks[1..]);
      assert CarryAll(flow, chunks)[1..] == CarryAll(flow, chunks[1..]);
    }
  }

  /** Nothing is delivered unless the end arrived. */
  lemma {:induction false} EndArrived(flow: Flow, messages: seq<Message>)
    requires Delivery(flow, messages).Some?
    ensures EndOf(flow) in messages
  {
    if messages[0] != EndOf(flow) { EndArrived(flow, messages[1..]); }
  }

  const FRAME_RESERVE: nat := 32
  const MAX_CHUNK: nat := 0x1_0000

  /** The chunk size for a frame limit; a limit of 32 or less has none. */
  function ChunkSize(maxFrame: nat): (r: Option<nat>)
    ensures r.None? <==> maxFrame <= 32
    ensures r.Some? ==> 0 < r.value <= 0x1_0000 && r.value + 32 <= maxFrame
    ensures r.Some? ==> r.value + 32 == maxFrame || r.value == 0x1_0000
  {
    if maxFrame <= FRAME_RESERVE then None
    else Some(if maxFrame - FRAME_RESERVE < MAX_CHUNK then maxFrame - FRAME_RESERVE else MAX_CHUNK)
  }

  lemma {:induction false} VarintLength(v: nat, rest: seq<byte>, index: nat)
    requires index <= 9 && v < VarintLimit(index)
    ensures |PutVarint(v, rest)| <= |rest| + 10 - index
    decreases 10 - index
  {
    if v >= 128 { VarintLength(v / 128, rest, index + 1); }
  }

  /**
   * Every chunk fits: it encodes, and the whole frame, its header included, is within the frame
   * limit that the transport enforces on each send.
   */
  lemma ChunkFits(flow: Flow, limits: Limits, bytes: seq<byte>)
    requires LimitsOk(limits) && ChunkSize(limits.maxFrame).Some? && |bytes| <= ChunkSize(limits.maxFrame).value
    ensures Sendable(TransferStream, limits, Carry(flow, bytes))
  {
    var m := Carry(flow, bytes);
    VarintLimitIsU64();
    VarintLength(|bytes|, bytes + [], 0);
    var payload := Payload(m);
    VarintLength(|payload|, payload + [], 0);
  }

  lemma EndFits(flow: Flow, limits: Limits)
    requires LimitsOk(limits) && ChunkSize(limits.maxFrame).Some?
    ensures Sendable(TransferStream, limits, EndOf(flow))
  {
    EmptyCrosses(TransferStream, limits, limits, EndOf(flow));
  }

  lemma {:induction false} AllFit(flow: Flow, limits: Limits, chunks: seq<seq<byte>>)
    requires LimitsOk(limits) && ChunkSize(limits.maxFrame).Some?
    requires forall c :: c in chunks ==> |c| <= ChunkSize(limits.maxFrame).value
    ensures AllEncodable(TransferStream, limits, CarryAll(flow, chunks))
  {
    hide Encodable, ChunkSize;
    if chunks == [] {
      EndFits(flow, limits);
    } else {
      ChunkFits(flow, limits, chunks[0]);
      AllFit(flow, limits, chunks[1..]);
    }
  }

  /** The messages a content is sent as. */
  function FlowMessages(flow: Flow, content: seq<byte>, limits: Limits, short: nat -> nat): seq<Message>
    requires ChunkSize(limits.maxFrame).Some? && forall k :: short(k) > 0
  {
    CarryAll(flow, Pieces(content, ChunkSize(limits.maxFrame).value, short, 0))
  }

  /** The messages of a flow all encode for the peer that sends it. */
  lemma FlowFits(flow: Flow, content: seq<byte>, limits: Limits, short: nat -> nat)
    requires LimitsOk(limits) && ChunkSize(limits.maxFrame).Some? && forall k :: short(k) > 0
    ensures AllEncodable(TransferStream, limits, FlowMessages(flow, content, limits, short))
  {
    hide Encodable, ChunkSize;
    var size := ChunkSize(limits.maxFrame).value;
    PiecesFacts(content, size, short, 0);
    AllFit(flow, limits, Pieces(content, size, short, 0));
  }

  /** Writes a content as frames, its chunks and then its end; none is refused by the transport. */
  method SendFlow(flow: Flow, content: seq<byte>, limits: Limits, short: nat -> nat)
    returns (wire: seq<byte>)
    requires LimitsOk(limits) && ChunkSize(limits.maxFrame).Some? && forall k :: short(k) > 0
    ensures AllEncodable(TransferStream, limits, FlowMessages(flow, content, limits, short))
    ensures wire == Frames(TransferStream, limits, FlowMessages(flow, content, limits, short))
  {
    hide Encodable, ChunkSize, Sendable;
    var size := ChunkSize(limits.maxFrame).value;
    PiecesFacts(content, size, short, 0);
    FlowFits(flow, content, limits, short);
    var chunks, produced := Produce(content, size, short, |content|);
    wire := SendChunks(flow, chunks, limits);
  }

  method SendChunks(flow: Flow, chunks: seq<seq<byte>>, limits: Limits) returns (wire: seq<byte>)
    requires LimitsOk(limits) && ChunkSize(limits.maxFrame).Some?
    requires forall c :: c in chunks ==> |c| <= ChunkSize(limits.maxFrame).value
    requires AllEncodable(TransferStream, limits, CarryAll(flow, chunks))
    ensures wire == Frames(TransferStream, limits, CarryAll(flow, chunks))
  {
    hide Encodable, ChunkSize, FrameOf, AllEncodable, CarryAll;
    ghost var whole := Frames(TransferStream, limits, CarryAll(flow, chunks));
    wire := [];
    assert chunks[0..] == chunks;
    for k := 0 to |chunks|
      invariant AllEncodable(TransferStream, limits, CarryAll(flow, chunks[k..]))
      invariant wire + Frames(TransferStream, limits, CarryAll(flow, chunks[k..])) == whole
    {
      assert chunks[k..][1..] == chunks[k + 1..] && chunks[k..][0] == chunks[k];
      ChunkFits(flow, limits, chunks[k]);
      var frame := SendFrame(TransferStream, Carry(flow, chunks[k]), limits);
      FrameFirst(flow, limits, chunks[k..]);
      Appended(wire, frame.value, Frames(TransferStream, limits, CarryAll(flow, chunks[k + 1..])));
      wire := wire + frame.value;
    }
    assert chunks[|chunks|..] == [];
    EndFits(flow, limits);
    var last := SendFrame(TransferStream, EndOf(flow), limits);
    FrameLast(flow, limits);
    wire := wire + last.value;
  }

  lemma FrameFirst(flow: Flow, limits: Limits, chunks: seq<seq<byte>>)
    requires chunks != [] && AllEncodable(TransferStream, limits, CarryAll(flow, chunks))
    ensures AllEncodable(TransferStream, limits, CarryAll(flow, chunks[1..]))
    ensures Encodable(TransferStream, limits, Carry(flow, chunks[0]))
    ensures Frames(TransferStream, limits, CarryAll(flow, chunks)) ==
            FrameOf(TransferStream, limits, Carry(flow, chunks[0])) + Frames(TransferStream, limits, CarryAll(flow, chunks[1..]))
  {
    hide Encodable, FrameOf;
    var all := CarryAll(flow, chunks);
    assert all[0] in all && all[1..] == CarryAll(flow, chunks[1..]);
  }

  lemma FrameLast(flow: Flow, limits: Limits)
    requires Encodable(TransferStream, limits, EndOf(flow))
    ensures AllEncodable(TransferStream, limits, CarryAll(flow, []))
    ensures Frames(TransferStream, limits, CarryAll(flow, [])) == FrameOf(TransferStream, limits, EndOf(flow))
  {
    hide Encodable, FrameOf;
    assert [EndOf(flow)][1..] == [];
    assert FrameOf(TransferStream, limits, EndOf(flow)) + [] == FrameOf(TransferStream, limits, EndOf(flow));
  }

  /** Nothing is delivered of a flow that is not read to its end. */
  lemma {:induction false} CutOffDelivers(flow: Flow, limits: Limits, chunks: seq<seq<byte>>)
    requires Readable(TransferStream, limits, CarryAll(flow, chunks)) != CarryAll(flow, chunks)
    ensures Delivery(flow, Readable(TransferStream, limits, CarryAll(flow, chunks))) == None
  {
    hide Encodable;
    var all := CarryAll(flow, chunks);
    if chunks == [] {
      assert all[1..] == [];
    } else {
      assert all[1..] == CarryAll(flow, chunks[1..]);
      if Encodable(TransferStream, limits, all[0]) {
        CutOffDelivers(flow, limits, chunks[1..]);
        assert Readable(TransferStream, limits, all)[1..] == Readable(TransferStream, limits, all[1..]);
      }
    }
  }

  /** A chunk is read by a peer exactly when its length leaves room for the field around it. */
  predicate ChunkReadable(limits: Limits, length: nat) {
    PREFIX + FieldSize(length) <= limits.maxFrame
  }

  lemma ChunkReadableIff(flow: Flow, limits: Limits, bytes: seq<byte>)
    ensures Encodable(TransferStream, limits, Carry(flow, bytes)) <==> ChunkReadable(limits, |bytes|)
  {
    VarintGroups(|bytes|, bytes + []);
  }

  /** The peer reads every chunk of a flow, and its end. */
  predicate FlowReadable(content: seq<byte>, sender: Limits, reader: Limits, short: nat -> nat)
    requires ChunkSize(sender.maxFrame).Some? && forall k :: short(k) > 0
  {
    && PREFIX <= reader.maxFrame
    && forall c :: c in Pieces(content, ChunkSize(sender.maxFrame).value, short, 0) ==> ChunkReadable(reader, |c|)
  }

  lemma {:induction false} CarriedReadable(flow: Flow, limits: Limits, chunks: seq<seq<byte>>)
    ensures AllEncodable(TransferStream, limits, CarryAll(flow, chunks)) <==>
            PREFIX <= limits.maxFrame && forall c :: c in chunks ==> ChunkReadable(limits, |c|)
  {
    hide Encodable, ChunkReadable;
    var all := CarryAll(flow, chunks);
    EndReadable(flow, limits);
    if chunks == [] {
      assert all == [EndOf(flow)] && all[0] in all;
    } else {
      CarriedReadable(flow, limits, chunks[1..]);
      ChunkReadableIff(flow, limits, chunks[0]);
      assert all == [all[0]] + CarryAll(flow, chunks[1..]) && all[0] in all;
      assert chunks == [chunks[0]] + chunks[1..] && chunks[0] in chunks;
    }
  }

  lemma EndReadable(flow: Flow, limits: Limits)
    ensures Encodable(TransferStream, limits, EndOf(flow)) <==> PREFIX <= limits.maxFrame
  {
  }

  /**
   * Reads one flow to its end; anything else, a refused frame, or the stream closing first is a failure.
   * Exactly what the messages deliver is staged, and what follows the end is still to be read.
   */
  method ReceiveFlow(flow: Flow, queue: MessageQueue, stream: ByteStream, sizes: nat -> nat)
    returns (staged: Option<seq<byte>>)
    requires queue.Valid() && forall k :: sizes(k) > 0
    modifies queue, queue.decoder, queue.decoder.header, stream
    ensures queue.Valid()
    ensures
      var coming := old(queue.Coming(stream));
      && (staged.Some? ==>
            && staged == Delivery(flow, coming.messages)
            && queue.Coming(stream) == Reading(After(flow, coming.messages), coming.held))
      && (staged.None? && coming.held.Some? ==> Delivery(flow, coming.messages) == None)
  {
    hide Holds, FeedUntil, Frames, Encodable;
    var chunks: seq<Chunk> := [];
    ghost var coming := queue.Coming(stream);
    PrefixedNone(Delivery(flow, coming.messages));
    while true
      invariant queue.Valid() && OnlyData(chunks)
      invariant Delivery(flow, coming.messages) ==
                Prefixed(UpToEnd(chunks), Delivery(flow, queue.Coming(stream).messages))
      invariant queue.Coming(stream).held == coming.held
      invariant After(flow, queue.Coming(stream).messages) == After(flow, coming.messages)
      decreases queue.Outstanding(stream)
    {
      ghost var before := queue.Coming(stream);
      var next := queue.Next(stream);
      if !next.Incoming? { return None; }
      var m := next.message;
      if m == EndOf(flow) {
        DataThenEnd(chunks);
        PrefixedEmpty(UpToEnd(chunks));
        staged := CopyAll(chunks + [LastChunk], sizes);
        return;
      }
      var bytes := Carried(flow, m);
      if bytes.None? { return None; }
      DeliveryStep(flow, before.messages, UpToEnd(chunks), bytes.value);
      ContentAppend(chunks, bytes.value);
      chunks := chunks + [Data(bytes.value)];
    }
  }

  predicate OnlyData(chunks: seq<Chunk>) {
    forall c :: c in chunks ==> c.Data?
  }

  lemma {:induction false} ContentAppend(chunks: seq<Chunk>, bytes: seq<byte>)
    requires OnlyData(chunks)
    ensures OnlyData(chunks + [Data(bytes)]) && UpToEnd(chunks + [Data(bytes)]) == UpToEnd(chunks) + bytes
  {
    var all := chunks + [Data(bytes)];
    if chunks == [] {
      assert all[1..] == [] && bytes + [] == bytes;
    } else {
      assert all[1..] == chunks[1..] + [Data(bytes)];
      ContentAppend(chunks[1..], bytes);
      Appended(chunks[0].bytes, UpToEnd(chunks[1..]), bytes);
    }
  }

  lemma {:induction false} DataThenEnd(chunks: seq<Chunk>)
    requires OnlyData(chunks)
    ensures Marked(chunks + [LastChunk]) && UpToEnd(chunks + [LastChunk]) == UpToEnd(chunks)
  {
    if chunks != [] {
      assert (chunks + [LastChunk])[1..] == chunks[1..] + [LastChunk];
      DataThenEnd(chunks[1..]);
    }
  }

  lemma PrefixedNone(later: Option<seq<byte>>)
    ensures Prefixed([], later) == later
  {
    if later.Some? { assert [] + later.value == later.value; }
  }

  lemma PrefixedEmpty(bytes: seq<byte>)
    ensures Prefixed(bytes, Some([])) == Some(bytes)
  {
    assert bytes + [] == bytes;
  }

  lemma DeliveryStep(flow: Flow, messages: seq<Message>, before: seq<byte>, bytes: seq<byte>)
    requires messages != [] && messages[0] != EndOf(flow) && Carried(flow, messages[0]) == Some(bytes)
    ensures Prefixed(before, Delivery(flow, messages)) == Prefixed(before + bytes, Delivery(flow, messages[1..]))
  {
    var later := Delivery(flow, messages[1..]);
    if later.Some? { Appended(before, bytes, later.value); }
  }

  /** Bytes already received in front of what is still delivered. */
  function Prefixed(bytes: seq<byte>, later: Option<seq<byte>>): Option<seq<byte>> {
    if later.None? then None else Some(bytes + later.value)
  }
}
