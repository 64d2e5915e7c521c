/**
 * What every message is on the wire, byte by byte: the layout another implementation would be written
 * from, with every tag, width and version as a number, and that the encodings are exactly this layout.
 */
module WireFormat {
  import opened Paths
  import opened Records
  import opened Wire
  import opened Radix
  import opened Messages
  import opened Fields
  import opened Codec

  /** A byte string with its length before it. */
  function Counted(bytes: seq<byte>): seq<byte> {
    Leb(|bytes|) + bytes
  }

  function NamesBytes(names: seq<Name>): seq<byte> {
    if names == [] then [] else Counted(names[0]) + NamesBytes(names[1..])
  }

  function PathBytes(path: Path): seq<byte> {
    Leb(|path|) + NamesBytes(path)
  }

  /** 1 for directories, 2 for files, 3 for links. */
  function KindNumber(kind: Kind): byte {
    if kind.DirectoryKind? then 1 else if kind.FileKind? then 2 else 3
  }

  function MetadataBytes(m: Metadata): seq<byte>
    requires IsI128(m.mtime)
  {
    var time: nat := if m.mtime < 0 then m.mtime + 0x1_0000_0000_0000_0000_0000_0000_0000_0000 else m.mtime;
    [KindNumber(m.kind)] + Le(m.mode, 4) + Le(time, 16) + Le(m.size, 8)
  }

  /** A byte that says whether the field is there, and the field. */
  function Maybe(present: bool, bytes: seq<byte>): seq<byte> {
    if present then [1] + bytes else [0]
  }

  function RecordBytes(r: Record): seq<byte>
    requires IsI128(r.metadata.mtime)
  {
    PathBytes(r.path) + MetadataBytes(r.metadata)
    + Maybe(r.digest.Some?, if r.digest.Some? then r.digest.value else [])
    + Maybe(r.target.Some?, if r.target.Some? then Counted(r.target.value) else [])
  }

  function OperationBytes(op: Operation): seq<byte>
    requires OperationRepresentable(op)
  {
    match op
    case UpsertDirectory(id, record) => [1] + Le(id, 8) + RecordBytes(record)
    case UpsertFile(id, record, update) => [if update then 5 else 2] + Le(id, 8) + RecordBytes(record)
    case UpsertSymlink(id, record) => [3] + Le(id, 8) + RecordBytes(record)
    case Delete(id, path, kind) => [4] + Le(id, 8) + PathBytes(path) + [KindNumber(kind)]
  }

  /** In the order of the protocol's table, from 1. */
  function CodeNumber(code: WireErrorCode): nat {
    match code
    case IncompatibleProtocol => 1 case InvalidMessage => 2 case Unauthorized => 3
    case InvalidPath => 4 case IntegrityFailure => 5 case ResourceLimit => 6
    case UnsupportedFilesystem => 7 case Cancelled => 8 case Internal => 9
  }

  function PhaseNumber(phase: Phase): byte {
    match phase
    case Handshake => 1 case Policy => 2 case Indexing => 3 case Planning => 4 case Transferring => 5
    case ReadyToCommit => 6 case Committing => 7 case Complete => 8 case Failed => 9
  }

  function FailureBytes(f: WireFailure): seq<byte> {
    Le(CodeNumber(f.code), 2) + Counted(f.message) + [PhaseNumber(f.phase)]
    + Maybe(f.operationId.Some?, if f.operationId.Some? then Le(f.operationId.value, 8) else [])
    + Maybe(f.path.Some?, if f.path.Some? then PathBytes(f.path.value) else [])
  }

  /** Kind, version 1 in two bytes, fields. */
  function MessageBytes(m: Message): seq<byte>
    requires Representable(m)
  {
    match m
    // control
    case StartSync(rootId) => [3, 1, 0] + Counted(rootId)
    case StartAccepted => [7, 1, 0]
    case PlannedOperation(operation) => [10, 1, 0] + OperationBytes(operation)
    case PlanEnd => [11, 1, 0]
    case CompleteAck => [13, 1, 0]
    case Failure(failure) => [15, 1, 0] + FailureBytes(failure)
    // index
    case IndexRecord(record) => [1, 1, 0] + RecordBytes(record)
    case IndexEnd => [2, 1, 0]
    // file transfer
    case UpdateRequest(id, path) => [1, 1, 0] + Le(id, 8) + PathBytes(path)
    case Signature(bytes) => [2, 1, 0] + Counted(bytes)
    case SignatureEnd => [3, 1, 0]
    case Delta(bytes) => [4, 1, 0] + Counted(bytes)
    case TransferEnd => [5, 1, 0]
    case TransferAccepted(id) => [6, 1, 0] + Le(id, 8)
    case CreateRequest(id, path) => [7, 1, 0] + Le(id, 8) + PathBytes(path)
    case WholeFile(bytes) => [8, 1, 0] + Counted(bytes)
  }

  function FrameBytes(m: Message): seq<byte>
    requires Representable(m)
  {
    Counted(MessageBytes(m))
  }

  /** The stream a message travels on; kind numbers are unique within one. */
  function StreamOf(m: Message): Category {
    if m.IndexRecord? || m.IndexEnd? then IndexStream
    else if m.StartSync? || m.StartAccepted? || m.PlannedOperation? || m.PlanEnd? || m.CompleteAck? || m.Failure?
    then ControlStream
    else TransferStream
  }

  /** The paths a message carries. */
  function PathsIn(m: Message): set<Path> {
    match m
    case PlannedOperation(operation) => {operation.At()}
    case Failure(failure) => if failure.path.Some? then {failure.path.value} else {}
    case IndexRecord(record) => {record.path}
    case UpdateRequest(_, path) => {path}
    case CreateRequest(_, path) => {path}
    case _ => {}
  }

  /** What the writer refuses: a path or a payload beyond its limit, and nothing else. */
  predicate WithinLimits(m: Message, limits: Limits)
    requires Representable(m)
  {
    && |MessageBytes(m)| <= limits.maxFrame
    && forall path :: path in PathsIn(m) ==> |path| <= limits.maxComponents && ByteCount(path) <= limits.maxPath
  }

  lemma {:induction false} NamesAre(names: seq<Name>, rest: seq<byte>)
    ensures PutComponents(names, rest) == NamesBytes(names) + rest
  {
    hide Leb, PutVarint;
    if names == [] {
      assert [] + rest == rest;
    } else {
      NamesAre(names[1..], rest);
      BytesAre(names[0], PutComponents(names[1..], rest));
      assert Counted(names[0]) + (NamesBytes(names[1..]) + rest) == (Counted(names[0]) + NamesBytes(names[1..])) + rest;
    }
  }

  lemma BytesAre(bytes: seq<byte>, rest: seq<byte>)
    ensures PutBytes(bytes, rest) == Counted(bytes) + rest
  {
    VarintIs(|bytes|, bytes + rest);
    assert Leb(|bytes|) + (bytes + rest) == (Leb(|bytes|) + bytes) + rest;
  }

  lemma PathIs(path: Path, rest: seq<byte>)
    ensures PutPath(path, rest) == PathBytes(path) + rest
  {
    NamesAre(path, rest);
    VarintIs(|path|, PutComponents(path, rest));
    assert Leb(|path|) + (NamesBytes(path) + rest) == (Leb(|path|) + NamesBytes(path)) + rest;
  }

  lemma MetadataIs(m: Metadata, rest: seq<byte>)
    requires IsI128(m.mtime)
    ensures PutMetadata(m, rest) == MetadataBytes(m) + rest
  {
    hide Le, PutFixed;
    var time: nat := if m.mtime < 0 then m.mtime + 2 * I128_HALF else m.mtime;
    FixedIs(m.size, 8, rest);
    FixedIs(time, 16, Le(m.size, 8) + rest);
    FixedIs(m.mode, 4, Le(time, 16) + (Le(m.size, 8) + rest));
    Four([KindNumber(m.kind)], Le(m.mode, 4), Le(time, 16), Le(m.size, 8), rest);
  }

  lemma Four(a: seq<byte>, b: seq<byte>, c: seq<byte>, d: seq<byte>, rest: seq<byte>)
    ensures a + (b + (c + (d + rest))) == (a + b + c + d) + rest
  {
  }

  lemma Three(a: seq<byte>, b: seq<byte>, c: seq<byte>, rest: seq<byte>)
    ensures a + (b + (c + rest)) == (a + b + c) + rest
  {
  }

  lemma Two(a: seq<byte>, b: seq<byte>, rest: seq<byte>)
    ensures a + (b + rest) == (a + b) + rest
  {
  }

  lemma DigestIs(digest: Option<Digest>, rest: seq<byte>)
    ensures PutDigest(digest, rest) == Maybe(digest.Some?, if digest.Some? then digest.value else []) + rest
  {
    if digest.Some? { Two([1], digest.value, rest); }
  }

  lemma TargetIs(target: Option<seq<byte>>, rest: seq<byte>)
    ensures PutTarget(target, rest) == Maybe(target.Some?, if target.Some? then Counted(target.value) else []) + rest
  {
    hide Leb, PutBytes;
    if target.Some? {
      BytesAre(target.value, rest);
      Two([1], Counted(target.value), rest);
    }
  }

  lemma RecordIs(r: Record, rest: seq<byte>)
    requires RecordRepresentable(r)
    ensures PutRecord(r, rest) == RecordBytes(r) + rest
  {
    hide PutPath, PutMetadata, PutDigest, PutTarget, PathBytes, MetadataBytes, Maybe, Counted, RecordRepresentable;
    RecordTime(r);
    var target := Maybe(r.target.Some?, if r.target.Some? then Counted(r.target.value) else []);
    var digest := Maybe(r.digest.Some?, if r.digest.Some? then r.digest.value else []);
    TargetIs(r.target, rest);
    DigestIs(r.digest, target + rest);
    MetadataIs(r.metadata, digest + (target + rest));
    PathIs(r.path, MetadataBytes(r.metadata) + (digest + (target + rest)));
    Four(PathBytes(r.path), MetadataBytes(r.metadata), digest, target, rest);
  }

  lemma RecordTime(r: Record)
    requires RecordRepresentable(r)
    ensures IsI128(r.metadata.mtime)
  {
  }

  lemma OperationIs(op: Operation, rest: seq<byte>)
    requires OperationRepresentable(op)
    ensures PutOperation(op, rest) == OperationBytes(op) + rest
  {
    hide PutRecord, PutPath, PutFixed, PathBytes, RecordBytes, Le, RecordRepresentable;
    if op.Delete? {
      var kind := [KindNumber(op.expectedKind)];
      assert PutByte(KindTag(op.expectedKind), rest) == kind + rest;
      PathIs(op.path, kind + rest);
      FixedIs(op.id, 8, PathBytes(op.path) + (kind + rest));
      Four([4], Le(op.id, 8), PathBytes(op.path), kind, rest);
    } else {
      RecordTime(op.record);
      RecordIs(op.record, rest);
      FixedIs(op.id, 8, RecordBytes(op.record) + rest);
      Three([OperationTag(op)], Le(op.id, 8), RecordBytes(op.record), rest);
    }
  }

  lemma IdIs(id: Option<nat>, rest: seq<byte>)
    ensures PutId(id, rest) == Maybe(id.Some?, if id.Some? then Le(id.value, 8) else []) + rest
  {
    hide Le, PutFixed;
    if id.Some? {
      FixedIs(id.value, 8, rest);
      Two([1], Le(id.value, 8), rest);
    }
  }

  lemma OptionalPathIs(path: Option<Path>, rest: seq<byte>)
    ensures PutOptionalPath(path, rest) == Maybe(path.Some?, if path.Some? then PathBytes(path.value) else []) + rest
  {
    hide PutPath, PathBytes;
    if path.Some? {
      PathIs(path.value, rest);
      Two([1], PathBytes(path.value), rest);
    }
  }

  lemma Five(a: seq<byte>, b: seq<byte>, c: seq<byte>, d: seq<byte>, e: seq<byte>, rest: seq<byte>)
    ensures a + (b + (c + (d + (e + rest)))) == (a + b + c + d + e) + rest
  {
  }

  lemma FailureIs(f: WireFailure, rest: seq<byte>)
    ensures PutFailure(f, rest) == FailureBytes(f) + rest
  {
    hide PutBytes, PutId, PutOptionalPath, PutPhase, PutCode, Maybe, Counted, Le;
    var id := Maybe(f.operationId.Some?, if f.operationId.Some? then Le(f.operationId.value, 8) else []);
    var path := Maybe(f.path.Some?, if f.path.Some? then PathBytes(f.path.value) else []);
    var phase, last := [PhaseNumber(f.phase)], path + rest;
    OptionalPathIs(f.path, rest);
    IdIs(f.operationId, last);
    TagsAre(f, id + last, Counted(f.message) + (phase + (id + last)));
    BytesAre(f.message, phase + (id + last));
    Five(Le(CodeNumber(f.code), 2), Counted(f.message), phase, id, path, rest);
  }

  lemma TagsAre(f: WireFailure, a: seq<byte>, b: seq<byte>)
    ensures PutPhase(f.phase, a) == [PhaseNumber(f.phase)] + a
    ensures PutCode(f.code, b) == Le(CodeNumber(f.code), 2) + b
  {
    hide Le, PutFixed;
    FixedIs(CodeNumber(f.code), 2, b);
  }

  lemma FieldsAre(m: Message)
    requires Representable(m)
    ensures MessageBytes(m) == [KindByte(m), 1, 0] + PutFields(m, [])
  {
    hide PutOperation, PutFailure, PutRecord, PutPath, PutBytes, PutFixed, Le, Leb, Counted, PathBytes, RecordBytes;
    hide OperationBytes, FailureBytes, RecordRepresentable, OperationRepresentable, FailureRepresentable, ValidPath, Utf8;
    match m {
      case StartSync(rootId) => BytesAre(rootId, []);
      case PlannedOperation(operation) => OperationIs(operation, []);
      case Failure(failure) => FailureIs(failure, []);
      case IndexRecord(record) => RecordIs(record, []);
      case _ => if StreamOf(m).TransferStream? { TransferFieldsAre(m); }
    }
  }

  lemma TransferFieldsAre(m: Message)
    requires Representable(m) && StreamOf(m).TransferStream?
    ensures MessageBytes(m) == [KindByte(m), 1, 0] + PutFields(m, [])
  {
    hide PutPath, PutBytes, PutFixed, Le, Counted, PathBytes, ValidPath;
    match m {
      case UpdateRequest(id, path) => RequestIs(id, path);
      case CreateRequest(id, path) => RequestIs(id, path);
      case WholeFile(bytes) => BytesAre(bytes, []);
      case Signature(bytes) => BytesAre(bytes, []);
      case Delta(bytes) => BytesAre(bytes, []);
      case TransferAccepted(id) => FixedIs(id, 8, []);
      case _ =>
    }
  }

  lemma RequestIs(id: nat, path: Path)
    ensures PutFixed(id, 8, PutPath(path, [])) == Le(id, 8) + PathBytes(path)
  {
    PathIs(path, []);
    FixedIs(id, 8, PathBytes(path));
    assert PathBytes(path) + [] == PathBytes(path);
  }

  lemma PayloadIs(m: Message)
    requires Representable(m)
    ensures Payload(m) == MessageBytes(m)
  {
    hide PutFields, MessageBytes, Representable, PutFixed, Le;
    FieldsAre(m);
    FixedIs(1, 2, PutFields(m, []));
    LeAre(1);
  }

  /** The encoder writes the layout, and refuses exactly what breaks a limit. */
  lemma EncodeIs(m: Message, limits: Limits)
    requires Representable(m)
    ensures Encode(m, limits).Ok? <==> WithinLimits(m, limits)
    ensures Encode(m, limits).Ok? ==> Encode(m, limits).value == FrameBytes(m)
  {
    hide Payload, MessageBytes, Representable;
    PayloadIs(m);
    BytesAre(MessageBytes(m), []);
    assert FrameBytes(m) + [] == FrameBytes(m);
  }

  /** The decoder accepts a frame as a message exactly when it is that message's layout within the limits. */
  lemma DecodeIs(category: Category, wire: seq<byte>, limits: Limits, m: Message)
    requires LimitsOk(limits)
    ensures Decode(category, wire, limits) == Ok(m) <==>
            Representable(m) && StreamOf(m) == category && WithinLimits(m, limits) && wire == FrameBytes(m)
  {
    hide Decode, Encode, FrameBytes, WithinLimits, Representable;
    if Decode(category, wire, limits) == Ok(m) {
      DecodeEncode(category, wire, limits);
      EncodeIs(m, limits);
    }
    if Representable(m) && StreamOf(m) == category && WithinLimits(m, limits) && wire == FrameBytes(m) {
      EncodeIs(m, limits);
      EncodeDecode(m, limits);
    }
  }

  /** The frames without fields, written out. */
  lemma ShortFrames()
    ensures FrameBytes(StartAccepted) == [3, 7, 1, 0] && FrameBytes(PlanEnd) == [3, 11, 1, 0]
    ensures FrameBytes(CompleteAck) == [3, 13, 1, 0] && FrameBytes(IndexEnd) == [3, 2, 1, 0]
    ensures FrameBytes(SignatureEnd) == [3, 3, 1, 0] && FrameBytes(TransferEnd) == [3, 5, 1, 0]
  {
    LebOne(3);
    hide Leb, Le;
  }

  /** The acknowledgment of a transfer. */
  lemma AcceptedFrame(id: nat)
    requires IsU64(id)
    ensures FrameBytes(TransferAccepted(id)) ==
            [11, 6, 1, 0, id % 0x100, id / 0x100 % 0x100, id / 0x1_0000 % 0x100, id / 0x100_0000 % 0x100,
             id / 0x1_0000_0000 % 0x100, id / 0x100_0000_0000 % 0x100, id / 0x1_0000_0000_0000 % 0x100,
             id / 0x100_0000_0000_0000 % 0x100]
  {
    LebOne(11);
    LeAre(id);
    hide Leb, Le;
    assert MessageBytes(TransferAccepted(id)) == [6, 1, 0] + Le(id, 8);
  }
}
