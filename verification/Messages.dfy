/** The three categories of wire messages, and which values their Rust types can hold. */
module Messages {
  import opened Paths
  import opened Records
  import opened Wire

  datatype Phase =
    | Handshake | Policy | Indexing | Planning | Transferring
    | ReadyToCommit | Committing | Complete | Failed

  datatype WireErrorCode =
    | IncompatibleProtocol | InvalidMessage | Unauthorized | InvalidPath | IntegrityFailure
    | ResourceLimit | UnsupportedFilesystem | Cancelled | Internal

  datatype WireFailure = WireFailure(
    code: WireErrorCode, message: seq<byte>, phase: Phase, operationId: Option<nat>, path: Option<Path>)

  datatype Category = ControlStream | IndexStream | TransferStream

  datatype Message =
    // control
    | StartSync(rootId: seq<byte>)
    | StartAccepted
    | PlannedOperation(operation: Operation)
    | PlanEnd
    | CompleteAck
    | Failure(failure: WireFailure)
    // index
    | IndexRecord(record: Record)
    | IndexEnd
    // file transfer
    | UpdateRequest(id: nat, path: Path)
    | CreateRequest(id: nat, path: Path)
    | WholeFile(bytes: seq<byte>)
    | Signature(bytes: seq<byte>)
    | SignatureEnd
    | Delta(bytes: seq<byte>)
    | TransferEnd
    | TransferAccepted(id: nat)

  function CategoryOf(m: Message): Category {
    match m
    case StartSync(_) => ControlStream
    case StartAccepted => ControlStream
    case PlannedOperation(_) => ControlStream
    case PlanEnd => ControlStream
    case CompleteAck => ControlStream
    case Failure(_) => ControlStream
    case IndexRecord(_) => IndexStream
    case IndexEnd => IndexStream
    case _ => TransferStream
  }

  /** Valid UTF-8, as in table 3-7 of the Unicode Standard. */
  predicate Utf8(s: seq<byte>) {
    s == [] ||
    (s[0] < 0x80 && Utf8(s[1..])) ||
    (|s| >= 2 && 0xc2 <= s[0] <= 0xdf && Tail(s[1]) && Utf8(s[2..])) ||
    (|s| >= 3 && 0xe0 <= s[0] <= 0xef && Tail(s[1]) && Tail(s[2])
     && (s[0] == 0xe0 ==> s[1] >= 0xa0) && (s[0] == 0xed ==> s[1] <= 0x9f) && Utf8(s[3..])) ||
    (|s| >= 4 && 0xf0 <= s[0] <= 0xf4 && Tail(s[1]) && Tail(s[2]) && Tail(s[3])
     && (s[0] == 0xf0 ==> s[1] >= 0x90) && (s[0] == 0xf4 ==> s[1] <= 0x8f) && Utf8(s[4..]))
  }

  predicate Tail(b: byte) { 0x80 <= b <= 0xbf }

  predicate IsU32(v: nat) { v < 0x1_0000_0000 }

  predicate RecordRepresentable(r: Record) {
    && ValidPath(r.path) && IsU32(r.metadata.mode) && IsI128(r.metadata.mtime) && IsU64(r.metadata.size)
    && (r.digest.Some? ==> |r.digest.value| == 32)
  }

  predicate OperationRepresentable(op: Operation) {
    IsU64(op.id) && (if op.Delete? then ValidPath(op.path) else RecordRepresentable(op.record))
  }

  predicate FailureRepresentable(f: WireFailure) {
    && Utf8(f.message) && (f.operationId.Some? ==> IsU64(f.operationId.value))
    && (f.path.Some? ==> ValidPath(f.path.value))
  }

  /** A value the Rust types can hold. */
  predicate Representable(m: Message) {
    match m
    case StartSync(rootId) => Utf8(rootId)
    case PlannedOperation(operation) => OperationRepresentable(operation)
    case Failure(failure) => FailureRepresentable(failure)
    case IndexRecord(record) => RecordRepresentable(record)
    case UpdateRequest(id, path) => IsU64(id) && ValidPath(path)
    case CreateRequest(id, path) => IsU64(id) && ValidPath(path)
    case TransferAccepted(id) => IsU64(id)
    case _ => true
  }
}
