/** The source's index on its way to the destination's planner. */
module Indexing {
  import opened Paths
  import opened Records
  import opened Wire
  import opened Messages
  import opened Fields
  import opened Streaming
  import opened Foreign
  import opened Sending
  import opened DecoderModel
  import opened Planner

  /** Every record is one the Rust types hold. */
  predicate RecordsOk(items: seq<Item>) {
    forall k :: 0 <= k < |items| && items[k].Listed? ==> RecordRepresentable(items[k].record)
  }

  /** The messages the source sends before a refusal, an error or the end of its index. */
  function SentIndex(items: seq<Item>, a: Limits): seq<Message> {
    if items == [] then []
    else match items[0]
      case Listed(record) =>
        if Sendable(IndexStream, a, IndexRecord(record)) then [IndexRecord(record)] + SentIndex(items[1..], a) else []
      case End => if Sendable(IndexStream, a, IndexEnd) then [IndexEnd] else []
      case Error => []
  }

  lemma {:induction false} SentEncodes(items: seq<Item>, a: Limits)
    ensures AllEncodable(IndexStream, a, SentIndex(items, a))
  {
    hide Encodable, FrameOf;
    if items != [] && items[0].Listed? { SentEncodes(items[1..], a); }
  }

  /** Encodes and sends item after item. */
  method SendIndex(items: seq<Item>, a: Limits, stream: ByteStream)
    requires RecordsOk(items) && stream.unread == []
    modifies stream
    ensures AllEncodable(IndexStream, a, SentIndex(items, a))
    ensures stream.unread == Frames(IndexStream, a, SentIndex(items, a))
  {
    hide Encodable, FrameOf, Sendable, RecordRepresentable;
    SentEncodes(items, a);
    assert items[0..] == items;
    for k := 0 to |items|
      invariant AllEncodable(IndexStream, a, SentIndex(items[k..], a))
      invariant stream.unread + Frames(IndexStream, a, SentIndex(items[k..], a)) == Frames(IndexStream, a, SentIndex(items, a))
    {
      assert items[k..][0] == items[k] && items[k..][1..] == items[k + 1..];
      match items[k] {
        case Listed(record) =>
          var frame := SendFrame(IndexStream, IndexRecord(record), a);
          if frame.None? { return; }
          FirstFrame(a, IndexRecord(record), SentIndex(items[k + 1..], a));
          JoinBytes(stream.unread, frame.value, Frames(IndexStream, a, SentIndex(items[k + 1..], a)));
          stream.Write(frame.value);
        case End =>
          var frame := SendFrame(IndexStream, IndexEnd, a);
          if frame.None? { return; }
          FirstFrame(a, IndexEnd, []);
          stream.Write(frame.value);
          return;
        case Error => return;
      }
    }
  }

  lemma JoinBytes(x: seq<byte>, y: seq<byte>, z: seq<byte>)
    ensures x + (y + z) == (x + y) + z
  {
  }

  lemma FirstFrame(a: Limits, m: Message, rest: seq<Message>)
    requires AllEncodable(IndexStream, a, [m] + rest)
    ensures Encodable(IndexStream, a, m) && AllEncodable(IndexStream, a, rest)
    ensures Frames(IndexStream, a, [m] + rest) == FrameOf(IndexStream, a, m) + Frames(IndexStream, a, rest)
    ensures Frames(IndexStream, a, []) == []
  {
    hide Encodable, FrameOf;
    var all := [m] + rest;
    assert all[0] in all && all[1..] == rest;
  }

  /** What the planner's channel is given of these messages. */
  function Arrived(messages: seq<Message>): seq<Item> {
    if messages == [] then []
    else match messages[0]
      case IndexRecord(record) => [Listed(record)] + Arrived(messages[1..])
      case IndexEnd => [End]
      case _ => []
  }

  /** Forwards records until the end; a stream that breaks off, or is refused, forwards no end. */
  method ReceiveIndex(queue: MessageQueue, stream: ByteStream) returns (items: seq<Item>)
    requires queue.Valid()
    modifies queue, queue.decoder, queue.decoder.header, stream
    ensures
      var coming := old(queue.Coming(stream));
      && items <= Arrived(coming.messages)
      && (Ended(items) ==> items == Arrived(coming.messages))
      && (!Ended(items) && coming.held.Some? ==> !Ended(Arrived(coming.messages)))
  {
    hide Holds, FeedUntil, Delivered, Arrived;
    items := [];
    NoneArrived(queue.Coming(stream).messages);
    ghost var coming := queue.Coming(stream);
    while true
      invariant queue.Valid() && queue.Coming(stream).held == coming.held
      invariant OnlyRecords(items)
      invariant Arrived(coming.messages) == items + Arrived(queue.Coming(stream).messages)
      decreases queue.Outstanding(stream)
    {
      ghost var before := queue.Coming(stream).messages;
      var next := queue.Next(stream);
      NotEnded(items);
      if !next.Incoming? {
        assert next.Closed? ==> items + [] == items;
        return;
      }
      ArrivesFirst(items, before);
      match next.message {
        case IndexRecord(record) =>
          items := items + [Listed(record)];
        case IndexEnd =>
          items := items + [End];
          return;
        case _ => return;
      }
    }
  }

  lemma NoneArrived(messages: seq<Message>)
    ensures Arrived([]) == [] && Arrived(messages) == [] + Arrived(messages)
  {
  }

  /** What the first message still to come adds. */
  lemma ArrivesFirst(items: seq<Item>, messages: seq<Message>)
    requires messages != []
    ensures
      match messages[0]
      case IndexRecord(record) => items + Arrived(messages) == (items + [Listed(record)]) + Arrived(messages[1..])
      case IndexEnd => Arrived(messages) == [End]
      case _ => items + Arrived(messages) == items
  {
  }

  predicate OnlyRecords(items: seq<Item>) {
    forall k :: 0 <= k < |items| ==> items[k].Listed?
  }

  lemma {:induction false} NotEnded(items: seq<Item>)
    requires OnlyRecords(items)
    ensures !Ended(items)
  {
    if items != [] { NotEnded(items[1..]); }
  }

  /** Every record, and the end, gets from the source to the destination. */
  predicate IndexFits(a: Limits, t: Limits, records: seq<Record>) {
    EmptyFits(a, t) && forall r :: r in records ==> RecordPasses(a, t, r)
  }

  lemma {:induction false} EndedRest(items: seq<Item>)
    requires items != [] && items[0].Listed?
    ensures Ended(items) <==> Ended(items[1..])
    ensures Delivered(items) == [items[0].record] + Delivered(items[1..])
  {
    var n := |Delivered(items[1..])|;
    if n < |items[1..]| { assert items[1..][n] == items[n + 1]; }
  }

  /** What the destination's planner is given: the whole index when everything fits, else no end. */
  predicate ArrivesAsSent(items: seq<Item>, a: Limits, t: Limits) {
    var sent := SentIndex(items, a);
    var read := Readable(IndexStream, t, sent);
    && (Ended(Arrived(read)) <==> Ended(items) && IndexFits(a, t, Delivered(items)))
    && (Ended(Arrived(read)) ==> read == sent && Arrived(read) == AsItems(Delivered(items)) + [End])
    && Delivered(Arrived(read)) <= Delivered(items)
  }

  lemma ListedArrives(items: seq<Item>, a: Limits, t: Limits)
    requires RecordsOk(items) && items != [] && items[0].Listed? && ArrivesAsSent(items[1..], a, t)
    ensures ArrivesAsSent(items, a, t)
  {
    hide Encodable, Sendable, RecordPasses, EmptyFits, RecordRepresentable, Ended;
    var record := items[0].record;
    var sent := SentIndex(items, a);
    var read := Readable(IndexStream, t, sent);
    RecordCrosses(a, t, record);
    EndedRest(items);
    if RecordPasses(a, t, record) {
      var rest := Readable(IndexStream, t, SentIndex(items[1..], a));
      assert sent[1..] == SentIndex(items[1..], a) && read == [IndexRecord(record)] + rest;
      assert read[1..] == rest;
      EndedRest(Arrived(read));
      assert Arrived(read)[1..] == Arrived(rest);
      assert AsItems(Delivered(items)) == [Listed(record)] + AsItems(Delivered(items[1..]));
    } else {
      assert record in Delivered(items) && read == [];
      NotEnded([]);
    }
  }

  lemma {:induction false} SentArrives(items: seq<Item>, a: Limits, t: Limits)
    requires RecordsOk(items)
    ensures ArrivesAsSent(items, a, t)
  {
    hide Encodable, Sendable, RecordPasses, EmptyFits, RecordRepresentable;
    if items == [] {
      assert !Ended(Arrived([])) && !Ended(items);
    } else {
      match items[0] {
        case Listed(record) =>
          SentArrives(items[1..], a, t);
          ListedArrives(items, a, t);
        case End =>
          EmptyCrosses(IndexStream, a, t, IndexEnd);
          if Sendable(IndexStream, a, IndexEnd) {
            assert SentIndex(items, a) == [IndexEnd] && Arrived([IndexEnd]) == [End];
            assert Readable(IndexStream, t, [IndexEnd]) == if Encodable(IndexStream, t, IndexEnd) then [IndexEnd] else [];
          }
          assert Delivered(items) == [] && AsItems([]) == [];
        case Error => assert !Ended(items) && SentIndex(items, a) == [];
      }
    }
  }

  lemma {:induction false} DeliveredPrefix(items: seq<Item>, more: seq<Item>)
    requires items <= more
    ensures Delivered(items) <= Delivered(more)
  {
    if items != [] && items[0].Listed? {
      assert items[1..] <= more[1..];
      DeliveredPrefix(items[1..], more[1..]);
    }
  }

  /**
   * The index between the two peers, each under its own limits, in whatever pieces it arrives: the
   * destination's planner is given the whole index and its end exactly when the scan ended and every
   * record fits; otherwise it is given records of a prefix and no end.
   */
  method ExchangeIndex(items: seq<Item>, a: Limits, t: Limits, pieces: nat -> nat) returns (remote: seq<Item>)
    requires RecordsOk(items) && LimitsOk(a) && LimitsOk(t)
    ensures Ended(remote) <==> Ended(items) && IndexFits(a, t, Delivered(items))
    ensures Ended(remote) ==> remote == AsItems(Delivered(items)) + [End]
    ensures Delivered(remote) <= Delivered(items)
  {
    hide RecordRepresentable, IndexFits, FeedUntil, Frames, Readable, SentIndex, Arrived, Delivered, Ended;
    var stream := new ByteStream(pieces);
    SendIndex(items, a, stream);
    var queue := new MessageQueue(IndexStream, t);
    ghost var sent := SentIndex(items, a);
    ForeignFrames(IndexStream, a, t, sent);
    BeforeBefore([], [], FeedUntil(IndexStream, t, Idle, stream.unread));
    SentArrives(items, a, t);
    remote := ReceiveIndex(queue, stream);
    DeliveredPrefix(remote, Arrived(Readable(IndexStream, t, sent)));
  }
}
