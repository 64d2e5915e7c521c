/** Whole frames: a varint length, a kind tag, the protocol version and the message's fields. */
module Codec {
  import opened Paths
  import opened Wire
  import opened Messages
  import opened Fields

  datatype Coded<+T> = Ok(value: T) | Err(error: CodecError)

  const CURRENT_VERSION: nat := 1
  /** The kind tag and the version. */
  const PREFIX: nat := 3

  function KindByte(m: Message): byte {
    match m
    case StartSync(_) => 3
    case StartAccepted => 7
    case PlannedOperation(_) => 10
    case PlanEnd => 11
    case CompleteAck => 13
    case Failure(_) => 15
    case IndexRecord(_) => 1
    case IndexEnd => 2
    case UpdateRequest(_, _) => 1
    case Signature(_) => 2
    case SignatureEnd => 3
    case Delta(_) => 4
    case TransferEnd => 5
    case TransferAccepted(_) => 6
    case CreateRequest(_, _) => 7
    case WholeFile(_) => 8
  }

  /** What the writer refuses: only paths are measured against the limits. */
  predicate WriterAccepts(m: Message, limits: Limits) {
    match m
    case PlannedOperation(operation) => PathFits(operation.At(), limits)
    case Failure(failure) => OptionalPathFits(failure.path, limits)
    case IndexRecord(record) => PathFits(record.path, limits)
    case UpdateRequest(_, path) => PathFits(path, limits)
    case CreateRequest(_, path) => PathFits(path, limits)
    case _ => true
  }

  function PutFields(m: Message, rest: seq<byte>): (r: seq<byte>)
    requires Representable(m)
    ensures |r| >= |rest|
  {
    match m
    case StartSync(rootId) => PutBytes(rootId, rest)
    case PlannedOperation(operation) => PutOperation(operation, rest)
    case Failure(failure) => PutFailure(failure, rest)
    case IndexRecord(record) => PutRecord(record, rest)
    case UpdateRequest(id, path) => PutFixed(id, 8, PutPath(path, rest))
    case CreateRequest(id, path) => PutFixed(id, 8, PutPath(path, rest))
    case WholeFile(bytes) => PutBytes(bytes, rest)
    case Signature(bytes) => PutBytes(bytes, rest)
    case Delta(bytes) => PutBytes(bytes, rest)
    case TransferAccepted(id) => PutFixed(id, 8, rest)
    case _ => rest
  }

  function ReadRequest(b: seq<byte>, limits: Limits): Parsed<(nat, Path)> {
    var (id, rest) :- ReadFixed(b, 8);
    var (path, rest) :- ReadPath(rest, limits);
    Parsed((id, path), rest)
  }

  function ReadControl(kind: byte, b: seq<byte>, limits: Limits): Parsed<Message> {
    if kind == 3 then
      var (rootId, rest) :- ReadText(b, limits);
      Parsed(StartSync(rootId), rest)
    else if kind == 7 then Parsed(StartAccepted, b)
    else if kind == 10 then
      var (operation, rest) :- ReadOperation(b, limits);
      Parsed(PlannedOperation(operation), rest)
    else if kind == 11 then Parsed(PlanEnd, b)
    else if kind == 13 then Parsed(CompleteAck, b)
    else if kind == 15 then
      var (failure, rest) :- ReadFailure(b, limits);
      Parsed(Failure(failure), rest)
    else Bad(UnknownMessageKind(kind))
  }

  function ReadIndex(kind: byte, b: seq<byte>, limits: Limits): Parsed<Message> {
    if kind == 1 then
      var (record, rest) :- ReadRecord(b, limits);
      Parsed(IndexRecord(record), rest)
    else if kind == 2 then Parsed(IndexEnd, b)
    else Bad(UnknownMessageKind(kind))
  }

  function ReadTransfer(kind: byte, b: seq<byte>, limits: Limits): Parsed<Message> {
    if kind == 1 || kind == 7 then
      var (request, rest) :- ReadRequest(b, limits);
      Parsed(if kind == 1 then UpdateRequest(request.0, request.1) else CreateRequest(request.0, request.1), rest)
    else if kind == 2 || kind == 4 || kind == 8 then
      var (bytes, rest) :- ReadBytes(b, limits.maxFrame);
      Parsed(if kind == 2 then Signature(bytes) else if kind == 4 then Delta(bytes) else WholeFile(bytes), rest)
    else if kind == 3 then Parsed(SignatureEnd, b)
    else if kind == 5 then Parsed(TransferEnd, b)
    else if kind == 6 then
      var (id, rest) :- ReadFixed(b, 8);
      Parsed(TransferAccepted(id), rest)
    else Bad(UnknownMessageKind(kind))
  }

  function ReadFields(category: Category, kind: byte, b: seq<byte>, limits: Limits): Parsed<Message> {
    match category
    case ControlStream => ReadControl(kind, b, limits)
    case IndexStream => ReadIndex(kind, b, limits)
    case TransferStream => ReadTransfer(kind, b, limits)
  }

  lemma RequestRoundTrip(id: nat, path: Path, rest: seq<byte>, limits: Limits)
    requires IsU64(id) && ValidPath(path) && PathFits(path, limits) && LimitsOk(limits)
    ensures ReadRequest(PutFixed(id, 8, PutPath(path, rest)), limits) == Parsed((id, path), rest)
  {
    hide PutPath, ReadPath, ReadFixed, PutFixed;
    Widths();
    FixedRoundTrip(id, 8, PutPath(path, rest));
    PathRoundTrip(path, rest, limits);
  }

  lemma RequestCanonical(b: seq<byte>, limits: Limits)
    requires ReadRequest(b, limits).Parsed?
    ensures
      var p := ReadRequest(b, limits);
      && IsU64(p.value.0) && ValidPath(p.value.1) && PathFits(p.value.1, limits)
      && b == PutFixed(p.value.0, 8, PutPath(p.value.1, p.rest))
  {
    hide PutPath, ReadPath, ReadFixed, PutFixed;
    Widths();
    FixedCanonical(b, 8);
    PathCanonical(ReadFixed(b, 8).rest, limits);
  }

  lemma FieldsRoundTrip(m: Message, rest: seq<byte>, limits: Limits)
    requires Representable(m) && WriterAccepts(m, limits) && LimitsOk(limits)
    requires |PutFields(m, rest)| <= limits.maxFrame
    ensures ReadFields(CategoryOf(m), KindByte(m), PutFields(m, rest), limits) == Parsed(m, rest)
  {
    hide ReadText, ReadOperation, ReadFailure, ReadRecord, ReadRequest, ReadBytes, ReadFixed;
    hide PutOperation, PutFailure, PutRecord, PutPath, PutBytes, PutFixed, Pow256;
    Widths();
    match m
    case StartSync(rootId) => TextRoundTrip(rootId, rest, limits);
    case PlannedOperation(operation) => OperationRoundTrip(operation, rest, limits);
    case Failure(failure) => FailureRoundTrip(failure, rest, limits);
    case IndexRecord(record) => RecordRoundTrip(record, rest, limits);
    case UpdateRequest(id, path) => RequestRoundTrip(id, path, rest, limits);
    case CreateRequest(id, path) => RequestRoundTrip(id, path, rest, limits);
    case WholeFile(bytes) => BytesRoundTrip(bytes, rest, limits.maxFrame);
    case Signature(bytes) => BytesRoundTrip(bytes, rest, limits.maxFrame);
    case Delta(bytes) => BytesRoundTrip(bytes, rest, limits.maxFrame);
    case TransferAccepted(id) => FixedRoundTrip(id, 8, rest);
    case _ =>
  }

  lemma FieldsCanonical(category: Category, kind: byte, b: seq<byte>, limits: Limits)
    requires ReadFields(category, kind, b, limits).Parsed?
    ensures
      var p := ReadFields(category, kind, b, limits);
      && Representable(p.value) && WriterAccepts(p.value, limits)
      && CategoryOf(p.value) == category && KindByte(p.value) == kind && b == PutFields(p.value, p.rest)
  {
    hide ReadText, ReadOperation, ReadFailure, ReadRecord, ReadRequest, ReadBytes, ReadFixed;
    hide PutOperation, PutFailure, PutRecord, PutPath, PutBytes, PutFixed, Pow256;
    Widths();
    match category {
      case ControlStream =>
        if kind == 3 { TextCanonical(b, limits); }
        if kind == 10 { OperationCanonical(b, limits); }
        if kind == 15 { FailureCanonical(b, limits); }
      case IndexStream =>
        if kind == 1 { RecordCanonical(b, limits); }
      case TransferStream =>
        if kind == 1 || kind == 7 { RequestCanonical(b, limits); }
        if kind == 2 || kind == 4 || kind == 8 { BytesCanonical(b, limits.maxFrame); }
        if kind == 6 { FixedCanonical(b, 8); }
    }
  }

  function Payload(m: Message): (r: seq<byte>)
    requires Representable(m)
    ensures |r| >= PREFIX
  {
    PutByte(KindByte(m), PutFixed(CURRENT_VERSION, 2, PutFields(m, [])))
  }

  /** The kind tag, once the version is known to be ours. */
  function ReadPrefix(b: seq<byte>): Parsed<byte> {
    var (kind, rest) :- ReadByte(b);
    var (version, rest) :- ReadFixed(rest, 2);
    if version != CURRENT_VERSION then Bad(UnsupportedVersion(version)) else Parsed(kind, rest)
  }

  function DecodePayload(category: Category, payload: seq<byte>, limits: Limits): Coded<Message> {
    var kind := ReadPrefix(payload);
    if kind.Bad? then Err(kind.error)
    else
      var message := ReadFields(category, kind.value, kind.rest, limits);
      if message.Bad? then Err(message.error)
      else if message.rest != [] then Err(TrailingBytes)
      else Ok(message.value)
  }

  function CheckFrameLength(declared: nat, limits: Limits): Option<CodecError> {
    if declared > limits.maxFrame then Some(FrameTooLarge(declared, limits.maxFrame))
    else if declared < PREFIX then Some(InvalidValue)
    else None
  }

  function Encode(m: Message, limits: Limits): Coded<seq<byte>>
    requires Representable(m)
  {
    if !WriterAccepts(m, limits) then Err(LimitExceeded)
    else if |Payload(m)| > limits.maxFrame then Err(FrameTooLarge(|Payload(m)|, limits.maxFrame))
    else Ok(PutBytes(Payload(m), []))
  }

  function Decode(category: Category, wire: seq<byte>, limits: Limits): Coded<Message> {
    var header := ReadVarint(wire);
    if header.Bad? then Err(header.error)
    else if CheckFrameLength(header.value, limits).Some? then Err(CheckFrameLength(header.value, limits).value)
    else if |header.rest| < header.value then Err(UnexpectedEof)
    else if |header.rest| != header.value then Err(TrailingBytes)
    else DecodePayload(category, header.rest, limits)
  }

  /** A payload the writer produced within the frame limit decodes to its message. */
  lemma PayloadRoundTrip(m: Message, limits: Limits)
    requires Representable(m) && WriterAccepts(m, limits) && LimitsOk(limits) && |Payload(m)| <= limits.maxFrame
    ensures DecodePayload(CategoryOf(m), Payload(m), limits) == Ok(m)
  {
    hide ReadFields, PutFields, ReadFixed, PutFixed, Representable, WriterAccepts;
    Widths();
    FixedRoundTrip(CURRENT_VERSION, 2, PutFields(m, []));
    FieldsRoundTrip(m, [], limits);
  }

  lemma PayloadCanonical(category: Category, payload: seq<byte>, limits: Limits)
    requires DecodePayload(category, payload, limits).Ok?
    ensures
      var m := DecodePayload(category, payload, limits).value;
      Representable(m) && WriterAccepts(m, limits) && CategoryOf(m) == category && payload == Payload(m)
  {
    hide ReadFields, PutFields, ReadFixed, PutFixed, Representable, WriterAccepts;
    ByteCanonical(payload);
    FixedCanonical(payload[1..], 2);
    FieldsCanonical(category, payload[0], ReadFixed(payload[1..], 2).rest, limits);
  }

  /**
   * The codec is a bijection between messages that encode and frames that decode: what is
   * written is read back, and a frame that is accepted is the one the writer would produce.
   */
  lemma EncodeDecode(m: Message, limits: Limits)
    requires Representable(m) && LimitsOk(limits) && Encode(m, limits).Ok?
    ensures Decode(CategoryOf(m), Encode(m, limits).value, limits) == Ok(m)
  {
    hide Payload, DecodePayload, Representable, WriterAccepts;
    var payload := Payload(m);
    VarintRoundTrip(|payload|, payload + []);
    assert payload + [] == payload;
    PayloadRoundTrip(m, limits);
  }

  lemma DecodeEncode(category: Category, wire: seq<byte>, limits: Limits)
    requires Decode(category, wire, limits).Ok?
    ensures
      var m := Decode(category, wire, limits).value;
      Representable(m) && CategoryOf(m) == category && Encode(m, limits) == Ok(wire)
  {
    hide Payload, DecodePayload, Representable, WriterAccepts;
    VarintCanonical(wire);
    var payload := ReadVarint(wire).rest;
    PayloadCanonical(category, payload, limits);
    assert payload + [] == payload;
  }
}
