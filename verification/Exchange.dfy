/** One file transfer between the two peers, each under its own limits: request, flows, acknowledgment. */
module Exchange {
  import opened Paths
  import opened Tree
  import opened Wire
  import opened Messages
  import opened Fields
  import opened Codec
  import opened Streaming
  import opened Foreign
  import opened Sending
  import opened DecoderModel
  import opened Transfer
  import opened Basis

  /** The librsync operations, and what is promised of them. */
  datatype Librsync = Librsync(
    signature: seq<byte> -> seq<byte>, delta: (seq<byte>, seq<byte>) -> seq<byte>,
    patch: (seq<byte>, seq<byte>) -> seq<byte>)

  ghost predicate Rebuilds(rsync: Librsync) {
    forall basis, file :: rsync.patch(basis, rsync.delta(file, rsync.signature(basis))) == file
  }

  /** One peer: its limits, how short its file reads are, and in what pieces it is handed the stream. */
  datatype Peer = Peer(limits: Limits, short: nat -> nat, pieces: nat -> nat, copies: nat -> nat)

  ghost predicate PeerOk(peer: Peer) {
    LimitsOk(peer.limits) && (forall k :: peer.short(k) > 0) && (forall k :: peer.copies(k) > 0)
  }

  function Request(id: nat, path: Path, update: bool): Message {
    if update then UpdateRequest(id, path) else CreateRequest(id, path)
  }

  /** The bytes of a request's payload. */
  function RequestSize(path: Path): nat {
    PREFIX + 8 + PathSize(path)
  }

  /** The destination can send the request and the source can read it. */
  predicate RequestFits(t: Limits, a: Limits, path: Path) {
    PathFits(path, t) && PathFits(path, a) && FrameFits(t, RequestSize(path)) && RequestSize(path) <= a.maxFrame
  }

  lemma RequestCrosses(t: Limits, a: Limits, id: nat, path: Path, update: bool)
    requires IsU64(id) && ValidPath(path)
    ensures Crosses(TransferStream, t, a, Request(id, path, update)) <==> RequestFits(t, a, path)
  {
    PathTakes(path, []);
    CrossesIff(TransferStream, t, a, Request(id, path, update));
  }

  /** Both peers can cut files into chunks. */
  predicate ChunksPossible(t: Limits, a: Limits) {
    ChunkSize(t.maxFrame).Some? && ChunkSize(a.maxFrame).Some?
  }

  /** Everything sent for this file is sent and read. */
  ghost predicate Transferable(path: Path, update: bool, file: seq<byte>, basis: seq<byte>, source: Peer, destination: Peer,
                         rsync: Librsync)
    requires PeerOk(source) && PeerOk(destination)
  {
    var a, t := source.limits, destination.limits;
    && ChunksPossible(t, a) && RequestFits(t, a, path)
    && (if update then
          && FlowReadable(rsync.signature(basis), t, a, destination.short)
          && FlowReadable(rsync.delta(file, rsync.signature(basis)), a, t, source.short)
        else FlowReadable(file, a, t, source.short))
  }

  /** What a transfer comes to: the source's file, or nothing when it cannot take place. */
  ghost function TransferResult(path: Path, update: bool, source: Nodes, live: Nodes, from: Peer, to: Peer,
                                rsync: Librsync): Option<seq<byte>>
    requires PeerOk(from) && PeerOk(to)
  {
    var file, basis := RegularAt(source, path), RegularAt(live, path);
    if !file.Found? || (update && !basis.Found?) then None
    else if Transferable(path, update, file.content, if update then basis.content else [], from, to, rsync) then
      Some(file.content)
    else None
  }

  /** A reader's direction: what is still to come on it. */
  ghost predicate Awaits(queue: MessageQueue, stream: ByteStream, limits: Limits, coming: Reading)
    reads queue, queue.decoder, queue.decoder.header, stream
  {
    && queue.Valid() && queue.decoder.category == TransferStream && queue.decoder.limits == limits
    && queue.Coming(stream) == coming
  }

  /** More is written while the reader is between frames. */
  method Transmit(stream: ByteStream, wire: seq<byte>, ghost queue: MessageQueue, ghost limits: Limits,
                  ghost messages: seq<Message>)
    requires Awaits(queue, stream, limits, Reading(messages, Some(Idle)))
    modifies stream
    ensures Awaits(queue, stream, limits, Before(messages, FeedUntil(TransferStream, limits, Idle, wire)))
  {
    hide FeedUntil, Holds;
    ghost var held, unread, pending := queue.decoder.State(), stream.unread, queue.pending;
    ghost var soFar := FeedUntil(TransferStream, limits, held, unread);
    stream.Write(wire);
    UntilAppend(TransferStream, limits, held, unread, wire);
    BeforeBefore(pending, soFar.messages, FeedUntil(TransferStream, limits, Idle, wire));
  }

  lemma NothingYet(queue: MessageQueue, stream: ByteStream, limits: Limits)
    requires queue.Valid() && queue.decoder.category == TransferStream && queue.decoder.limits == limits
    requires queue.pending == [] && queue.decoder.State() == Idle && stream.unread == []
    ensures Awaits(queue, stream, limits, Reading([], Some(Idle)))
  {
    NothingFed(TransferStream, limits, Idle);
    BeforeBefore([], [], Reading([], Some(Idle)));
  }

  /** A flow as the other peer will read it: to its end, or up to a chunk that peer refuses. */
  lemma FlowRead(flow: Flow, content: seq<byte>, sender: Limits, reader: Limits, short: nat -> nat)
    requires LimitsOk(sender) && LimitsOk(reader) && ChunkSize(sender.maxFrame).Some? && forall k :: short(k) > 0
    ensures AllEncodable(TransferStream, sender, FlowMessages(flow, content, sender, short))
    ensures
      var messages := FlowMessages(flow, content, sender, short);
      var read := FeedUntil(TransferStream, reader, Idle, Frames(TransferStream, sender, messages));
      if FlowReadable(content, sender, reader, short) then
        && read == Reading(messages, Some(Idle))
        && Delivery(flow, messages) == Some(content) && After(flow, messages) == []
      else read.held.None? && Delivery(flow, read.messages) == None
  {
    hide Encodable, ChunkSize, FeedUntil, Frames, Delivery, After, AllEncodable;
    var pieces := Pieces(content, ChunkSize(sender.maxFrame).value, short, 0);
    var messages := FlowMessages(flow, content, sender, short);
    PiecesFacts(content, ChunkSize(sender.maxFrame).value, short, 0);
    FlowFits(flow, content, sender, short);
    ForeignFrames(TransferStream, sender, reader, messages);
    AllReadable(TransferStream, reader, messages);
    CarriedReadable(flow, reader, pieces);
    CarriedDelivers(flow, pieces);
    if Readable(TransferStream, reader, messages) != messages { CutOffDelivers(flow, reader, pieces); }
  }

  /** A flow on a direction of its own, from its start to its end. */
  method Answer(flow: Flow, content: seq<byte>, sender: Peer, reader: Peer) returns (arrived: Option<seq<byte>>)
    requires PeerOk(sender) && PeerOk(reader) && ChunkSize(sender.limits.maxFrame).Some?
    ensures arrived == if FlowReadable(content, sender.limits, reader.limits, sender.short) then Some(content) else None
  {
    hide Awaits, ChunkSize, FeedUntil, Frames, FlowReadable, FlowMessages, AllEncodable, Delivery, After;
    var stream := new ByteStream(reader.pieces);
    var queue := new MessageQueue(TransferStream, reader.limits);
    NothingYet(queue, stream, reader.limits);
    var wire := SendFlow(flow, content, sender.limits, sender.short);
    Transmit(stream, wire, queue, reader.limits, []);
    FlowRead(flow, content, sender.limits, reader.limits, sender.short);
    arrived := ReadFlow(flow, queue, stream, reader, FeedUntil(TransferStream, reader.limits, Idle, wire));
  }

  /** Reads a flow off a direction that holds nothing before it. */
  method ReadFlow(flow: Flow, queue: MessageQueue, stream: ByteStream, reader: Peer, ghost coming: Reading)
    returns (arrived: Option<seq<byte>>)
    requires PeerOk(reader) && Awaits(queue, stream, reader.limits, Before([], coming))
    modifies queue, queue.decoder, queue.decoder.header, stream
    ensures arrived.Some? ==> arrived == Delivery(flow, coming.messages)
                              && Awaits(queue, stream, reader.limits, Reading(After(flow, coming.messages), coming.held))
    ensures arrived.None? && coming.held.Some? ==> Delivery(flow, coming.messages) == None
  {
    BeforeBefore([], [], coming);
    arrived := ReceiveFlow(flow, queue, stream, reader.copies);
  }

  /** The destination can ask: its own limits take the request, and an update has its basis. */
  ghost predicate CanAsk(id: nat, path: Path, update: bool, live: Nodes, to: Peer) {
    && ChunkSize(to.limits.maxFrame).Some? && Sendable(TransferStream, to.limits, Request(id, path, update))
    && (update ==> RegularAt(live, path).Found?)
  }

  /** The signature of the basis as the destination writes it. */
  ghost function SignatureWire(path: Path, live: Nodes, to: Peer, rsync: Librsync): seq<byte>
    requires PeerOk(to) && ChunkSize(to.limits.maxFrame).Some? && RegularAt(live, path).Found?
  {
    var signature := rsync.signature(RegularAt(live, path).content);
    FlowFits(Signatures, signature, to.limits, to.short);
    Frames(TransferStream, to.limits, FlowMessages(Signatures, signature, to.limits, to.short))
  }

  /** All the destination writes before it waits: the request, and for an update the basis's signature. */
  ghost function AskedBytes(id: nat, path: Path, update: bool, live: Nodes, to: Peer, rsync: Librsync): seq<byte>
    requires PeerOk(to) && CanAsk(id, path, update, live, to)
  {
    var request := FrameOf(TransferStream, to.limits, Request(id, path, update));
    if update then request + SignatureWire(path, live, to, rsync) else request
  }

  method Ask(id: nat, path: Path, update: bool, live: Nodes, to: Peer, rsync: Librsync, toSource: ByteStream)
    returns (ok: bool)
    requires PeerOk(to) && IsU64(id) && ValidPath(path) && toSource.unread == []
    modifies toSource
    ensures ok <==> CanAsk(id, path, update, live, to)
    ensures ok ==> toSource.unread == AskedBytes(id, path, update, live, to, rsync)
  {
    hide ChunkSize, Sendable, Encodable, FrameOf, Frames, FlowMessages, RegularAt;
    if ChunkSize(to.limits.maxFrame).None? { return false; }
    var frame := SendFrame(TransferStream, Request(id, path, update), to.limits);
    if frame.None? { return false; }
    toSource.Write(frame.value);
    if update {
      var basis := OpenRegular(live, path);
      if !basis.Found? { return false; }
      var wire := SendFlow(Signatures, rsync.signature(basis.content), to.limits, to.short);
      toSource.Write(wire);
    }
    return true;
  }

  /** What the source reads of it, in whatever pieces: one piece may span the request and the signature. */
  lemma AskedRead(id: nat, path: Path, update: bool, live: Nodes, from: Peer, to: Peer, rsync: Librsync)
    requires PeerOk(from) && PeerOk(to) && CanAsk(id, path, update, live, to)
    ensures
      var request := Request(id, path, update);
      var read := FeedUntil(TransferStream, from.limits, Idle, AskedBytes(id, path, update, live, to, rsync));
      if !Encodable(TransferStream, from.limits, request) then read == Reading([], None)
      else if !update then read == Reading([request], Some(Idle))
      else read == Before([request], FeedUntil(TransferStream, from.limits, Idle, SignatureWire(path, live, to, rsync)))
  {
    hide ChunkSize, Encodable, FrameOf, SignatureWire, RegularAt, FeedUntil;
    var request := Request(id, path, update);
    var frame := FrameOf(TransferStream, to.limits, request);
    ForeignFrame(TransferStream, to.limits, from.limits, request);
    if update {
      UntilAppend(TransferStream, from.limits, Idle, frame, SignatureWire(path, live, to, rsync));
    }
  }

  /** The source answers the request it reads with the file, whole or as a delta to the signature it reads. */
  method Serve(request: Message, source: Nodes, live: Nodes, path: Path, from: Peer, to: Peer, rsync: Librsync,
               toSource: ByteStream, atSource: MessageQueue, ghost signed: Reading)
    returns (staged: Option<seq<byte>>)
    requires PeerOk(from) && PeerOk(to) && Rebuilds(rsync) && ChunksPossible(to.limits, from.limits)
    requires (request.CreateRequest? || request.UpdateRequest?) && request.path == path && path != []
    requires request.UpdateRequest? ==> RegularAt(live, path).Found?
    requires Awaits(atSource, toSource, from.limits, Before([], signed))
    requires
      if request.CreateRequest? then signed == Reading([], Some(Idle))
      else signed == FeedUntil(TransferStream, from.limits, Idle, SignatureWire(path, live, to, rsync))
    modifies atSource, atSource.decoder, atSource.decoder.header, toSource
    ensures
      var file := RegularAt(source, path);
      staged ==
      if !file.Found? then None
      else if request.CreateRequest? then
        (if FlowReadable(file.content, from.limits, to.limits, from.short) then Some(file.content) else None)
      else
        var signature := rsync.signature(RegularAt(live, path).content);
        if FlowReadable(signature, to.limits, from.limits, to.short)
           && FlowReadable(rsync.delta(file.content, signature), from.limits, to.limits, from.short) then Some(file.content)
        else None
    ensures staged.Some? ==> Awaits(atSource, toSource, from.limits, Reading([], Some(Idle)))
  {
    hide Awaits, ChunkSize, FeedUntil, Frames, FlowReadable, FlowMessages, RegularAt, Delivery, After;
    BeforeBefore([], [], signed);
    var file := OpenRegular(source, path);
    if !file.Found? { return None; }
    if request.CreateRequest? {
      staged := Answer(WholeFiles, file.content, from, to);
      return;
    }
    var basis := OpenRegular(live, path);
    FlowRead(Signatures, rsync.signature(basis.content), to.limits, from.limits, to.short);
    var signature := ReadFlow(Signatures, atSource, toSource, from, signed);
    if signature.None? { return None; }
    var delta := Answer(Deltas, rsync.delta(file.content, signature.value), from, to);
    if delta.None? { return None; }
    staged := Some(rsync.patch(basis.content, delta.value));
  }

  /** The destination reports the file staged; the source checks that it is the one it sent. */
  method Acknowledge(id: nat, asked: nat, from: Peer, to: Peer, toSource: ByteStream, atSource: MessageQueue)
    returns (ok: bool)
    requires IsU64(id) && PeerOk(from) && PeerOk(to) && ChunksPossible(to.limits, from.limits)
    requires Awaits(atSource, toSource, from.limits, Reading([], Some(Idle)))
    modifies atSource, atSource.decoder, atSource.decoder.header, toSource
    ensures ok <==> id == asked
  {
    hide ChunkSize, Encodable, FeedUntil, FrameOf, Sendable;
    AcceptedFits(id, from.limits, to.limits);
    var frame := SendFrame(TransferStream, TransferAccepted(id), to.limits);
    Transmit(toSource, frame.value, atSource, from.limits, []);
    ForeignFrame(TransferStream, to.limits, from.limits, TransferAccepted(id));
    var reply := atSource.Next(toSource);
    return reply == Incoming(TransferAccepted(asked));
  }

  lemma AcceptedFits(id: nat, a: Limits, t: Limits)
    requires IsU64(id) && ChunksPossible(t, a)
    ensures Representable(TransferAccepted(id))
    ensures Sendable(TransferStream, t, TransferAccepted(id)) && Encodable(TransferStream, a, TransferAccepted(id))
  {
    CrossesIff(TransferStream, t, a, TransferAccepted(id));
  }

  /**
   * A create or an update, both peers in full and each under its own limits, whatever the reads, chunks
   * and pieces. The file is staged and acknowledged exactly when both files are there and everything the
   * two send each other fits the sender's transport and the reader's codec; the staged bytes are then the
   * source's.
   */
  method TransferFile(id: nat, path: Path, update: bool, source: Nodes, live: Nodes, from: Peer, to: Peer,
                      rsync: Librsync)
    returns (staged: Option<seq<byte>>, acknowledged: bool)
    requires IsU64(id) && ValidPath(path) && PeerOk(from) && PeerOk(to) && Rebuilds(rsync)
    ensures staged == TransferResult(path, update, source, live, from, to, rsync)
    ensures acknowledged <==> staged.Some?
  {
    hide Awaits, ChunkSize, FeedUntil, AskedBytes, SignatureWire, FlowReadable, RegularAt, Encodable, Sendable, RequestFits;
    RequestCrosses(to.limits, from.limits, id, path, update);
    var request := Request(id, path, update);
    // destination
    var toSource := new ByteStream(from.pieces);
    var asked := Ask(id, path, update, live, to, rsync, toSource);
    if !asked { return None, false; }
    // source
    if ChunkSize(from.limits.maxFrame).None? { return None, false; }
    var atSource := new MessageQueue(TransferStream, from.limits);
    AskedRead(id, path, update, live, from, to, rsync);
    Begins(atSource, toSource, from.limits);
    if update { SignatureRead(path, live, from, to, rsync); }
    var next := ReadFirst(atSource, toSource, from.limits,
                          FeedUntil(TransferStream, from.limits, Idle, AskedBytes(id, path, update, live, to, rsync)));
    if !next.Incoming? { return None, false; }
    ghost var signed := if update then FeedUntil(TransferStream, from.limits, Idle, SignatureWire(path, live, to, rsync))
                        else Reading([], Some(Idle));
    Unwrap(request, signed);
    staged := Serve(next.message, source, live, path, from, to, rsync, toSource, atSource, signed);
    if staged.None? { return None, false; }
    acknowledged := Acknowledge(id, next.message.id, from, to, toSource, atSource);
  }

  method ReadFirst(queue: MessageQueue, stream: ByteStream, limits: Limits, ghost coming: Reading)
    returns (next: Received)
    requires Awaits(queue, stream, limits, coming)
    modifies queue, queue.decoder, queue.decoder.header, stream
    ensures next.Incoming? ==> coming.messages != [] && next.message == coming.messages[0]
                               && Awaits(queue, stream, limits, Reading(coming.messages[1..], coming.held))
    ensures next.Malformed? ==> coming.held.None?
    ensures next.Closed? ==> coming.messages == []
  {
    next := queue.Next(stream);
  }

  /** The source reads the signature to its end exactly when its limits take every chunk. */
  lemma SignatureRead(path: Path, live: Nodes, from: Peer, to: Peer, rsync: Librsync)
    requires PeerOk(from) && PeerOk(to) && ChunkSize(to.limits.maxFrame).Some? && RegularAt(live, path).Found?
    ensures
      var read := FeedUntil(TransferStream, from.limits, Idle, SignatureWire(path, live, to, rsync));
      read.held.Some? <==>
      FlowReadable(rsync.signature(RegularAt(live, path).content), to.limits, from.limits, to.short)
  {
    hide FeedUntil, Frames, FlowReadable, FlowMessages, RegularAt, Delivery, After, ChunkSize, AllEncodable;
    FlowRead(Signatures, rsync.signature(RegularAt(live, path).content), to.limits, from.limits, to.short);
  }

  /** A fresh reader reads the stream from its beginning. */
  lemma Begins(queue: MessageQueue, stream: ByteStream, limits: Limits)
    requires queue.Valid() && queue.decoder.category == TransferStream && queue.decoder.limits == limits
    requires queue.pending == [] && queue.decoder.State() == Idle
    ensures Awaits(queue, stream, limits, FeedUntil(TransferStream, limits, Idle, stream.unread))
  {
    BeforeBefore([], [], FeedUntil(TransferStream, limits, Idle, stream.unread));
  }

  /** Behind the first message comes what was put behind it. */
  lemma Unwrap(m: Message, later: Reading)
    ensures Before([m], later).messages[0] == m
    ensures Reading(Before([m], later).messages[1..], later.held) == Before([], later) == later
    ensures Before([m], Reading([], Some(Idle))) == Reading([m], Some(Idle))
  {
  }
}
