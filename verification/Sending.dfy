/**
 * From one peer's codec and transport to the other peer's codec: each has limits of its own, and the
 * sizes that decide whether a message gets across.
 */
module Sending {
  import opened Paths
  import opened Records
  import opened Wire
  import opened Radix
  import opened Messages
  import opened Fields
  import opened Codec
  import opened Streaming
  import opened WriterModel

  /** The message encodes and its whole frame passes the sender's transport. */
  predicate Sendable(category: Category, limits: Limits, m: Message) {
    Encodable(category, limits, m) && |FrameOf(category, limits, m)| <= limits.maxFrame
  }

  /** The message is sent under `a` and read under `b`. */
  predicate Crosses(category: Category, a: Limits, b: Limits, m: Message) {
    Sendable(category, a, m) && Encodable(category, b, m)
  }

  /** The payload and one byte for each seven bits of its length. */
  predicate FrameFits(limits: Limits, payload: nat) {
    payload + Groups(payload) <= limits.maxFrame
  }

  lemma FrameLength(category: Category, limits: Limits, m: Message)
    requires Encodable(category, limits, m)
    ensures |FrameOf(category, limits, m)| == |Payload(m)| + Groups(|Payload(m)|)
  {
    VarintGroups(|Payload(m)|, Payload(m) + []);
  }

  /**
   * The codec measures the payload and the transport the frame: an encodable message is refused by
   * the transport exactly when its payload leaves no room for one byte for each seven bits of its length.
   */
  lemma TransportRefuses(category: Category, limits: Limits, m: Message)
    requires Encodable(category, limits, m)
    ensures !Sendable(category, limits, m) <==> !FrameFits(limits, |Payload(m)|)
  {
    FrameLength(category, limits, m);
  }

  /** Such messages exist: encoding within the limit is not enough to be sent. */
  lemma TransportMayRefuse()
    ensures
      var limits := Limits(100, 100, 10);
      var m := CreateRequest(0, [seq(87, _ => 0x61)]);
      Encodable(TransferStream, limits, m) && !Sendable(TransferStream, limits, m)
  {
    var limits := Limits(100, 100, 10);
    var name: Name := seq(87, _ => 0x61);
    var m := CreateRequest(0, [name]);
    assert name[0] == 0x61 && |name| == 87;
    assert ByteCount([name]) == 87 + ByteCount([]) by { assert [name][1..] == []; }
    PathTakes([name], []);
    assert ComponentsSize([name]) == 88 + ComponentsSize([]) by { assert [name][1..] == []; }
    assert |Payload(m)| == 100;
    FrameLength(TransferStream, limits, m);
  }

  /** A message gets across exactly when both peers take its paths, the frame fits one and the payload the other. */
  lemma CrossesIff(category: Category, a: Limits, b: Limits, m: Message)
    requires Representable(m) && CategoryOf(m) == category
    ensures Crosses(category, a, b, m) <==>
            WriterAccepts(m, a) && WriterAccepts(m, b) && FrameFits(a, |Payload(m)|) && |Payload(m)| <= b.maxFrame
  {
    hide Representable, Payload, WriterAccepts;
    if Encodable(category, a, m) { FrameLength(category, a, m); }
  }

  /** `encode` and the transport's own check. */
  method SendFrame(category: Category, m: Message, limits: Limits) returns (frame: Option<seq<byte>>)
    requires Representable(m) && CategoryOf(m) == category
    ensures frame == if Sendable(category, limits, m) then Some(FrameOf(category, limits, m)) else None
  {
    hide Encode, Representable;
    var encoded := EncodeFrame(m, limits);
    if encoded.Err? || |encoded.value| > limits.maxFrame { return None; }
    return Some(encoded.value);
  }

  function ComponentsSize(path: Path): nat {
    if path == [] then 0 else Groups(|path[0]|) + |path[0]| + ComponentsSize(path[1..])
  }

  /** The bytes a path takes. */
  function PathSize(path: Path): nat {
    Groups(|path|) + ComponentsSize(path)
  }

  lemma {:induction false} ComponentsTake(path: Path, rest: seq<byte>)
    ensures |PutComponents(path, rest)| == ComponentsSize(path) + |rest|
  {
    if path != [] {
      ComponentsTake(path[1..], rest);
      VarintGroups(|path[0]|, path[0] + PutComponents(path[1..], rest));
    }
  }

  lemma PathTakes(path: Path, rest: seq<byte>)
    ensures |PutPath(path, rest)| == PathSize(path) + |rest|
  {
    ComponentsTake(path, rest);
    VarintGroups(|path|, PutComponents(path, rest));
  }

  /** Kind, mode, time and size. */
  const METADATA_SIZE: nat := 29

  /** A length-prefixed field. */
  function FieldSize(length: nat): nat {
    Groups(length) + length
  }

  /** The bytes of an index record. */
  function RecordSize(r: Record): nat {
    PathSize(r.path) + METADATA_SIZE
    + (if r.digest.Some? then 33 else 1)
    + (if r.target.Some? then 1 + FieldSize(|r.target.value|) else 1)
  }

  lemma RecordTakes(r: Record)
    requires RecordRepresentable(r)
    ensures |Payload(IndexRecord(r))| == PREFIX + RecordSize(r)
  {
    hide PutPath, PutVarint, PathSize;
    var target := PutTarget(r.target, []);
    if r.target.Some? { VarintGroups(|r.target.value|, r.target.value + []); }
    var digest := PutDigest(r.digest, target);
    PathTakes(r.path, PutMetadata(r.metadata, digest));
  }

  /**
   * What a record needs to get from the source's index into the destination's planner: its path within
   * both peers' bounds, its payload within the destination's frame limit, its frame within the source's.
   */
  predicate RecordPasses(a: Limits, b: Limits, r: Record) {
    && PathFits(r.path, a) && PathFits(r.path, b)
    && FrameFits(a, PREFIX + RecordSize(r)) && PREFIX + RecordSize(r) <= b.maxFrame
  }

  lemma RecordCrosses(a: Limits, b: Limits, r: Record)
    requires RecordRepresentable(r)
    ensures Crosses(IndexStream, a, b, IndexRecord(r)) <==> RecordPasses(a, b, r)
  {
    hide Payload, RecordSize, PathFits;
    RecordTakes(r);
    CrossesIff(IndexStream, a, b, IndexRecord(r));
  }

  /** A message without fields. */
  predicate EmptyFits(a: Limits, b: Limits) {
    FrameFits(a, PREFIX) && PREFIX <= b.maxFrame
  }

  lemma EmptyCrosses(category: Category, a: Limits, b: Limits, m: Message)
    requires CategoryOf(m) == category
    requires m.StartAccepted? || m.PlanEnd? || m.CompleteAck? || m.IndexEnd? || m.SignatureEnd? || m.TransferEnd?
    ensures Crosses(category, a, b, m) <==> EmptyFits(a, b)
  {
    CrossesIff(category, a, b, m);
  }
}
