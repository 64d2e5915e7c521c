/** The composite payload fields: paths, records, operations and failures. */
module Fields {
  import opened Paths
  import opened Records
  import opened Wire
  import opened Messages

  /** The bounds the writer checks before it writes a path. */
  predicate PathFits(path: Path, limits: Limits) {
    |path| <= limits.maxComponents && ByteCount(path) <= limits.maxPath
  }

  function PutComponents(path: Path, rest: seq<byte>): (r: seq<byte>)
    ensures |r| >= |rest|
  {
    if path == [] then rest else PutBytes(path[0], PutComponents(path[1..], rest))
  }

  function ReadComponents(b: seq<byte>, count: nat, budget: nat): Parsed<Path>
    decreases count
  {
    if count == 0 then Parsed([], b)
    else
      var (first, rest) :- ReadBytes(b, budget);
      var (others, rest') :- ReadComponents(rest, count - 1, budget - |first|);
      Parsed([first] + others, rest')
  }

  lemma {:induction false} ComponentsRoundTrip(path: Path, rest: seq<byte>, budget: nat)
    requires ByteCount(path) <= budget && IsU64(budget)
    ensures ReadComponents(PutComponents(path, rest), |path|, budget) == Parsed(path, rest)
  {
    hide ReadBytes, PutBytes;
    if path != [] {
      BytesRoundTrip(path[0], PutComponents(path[1..], rest), budget);
      ComponentsRoundTrip(path[1..], rest, budget - |path[0]|);
      assert path == [path[0]] + path[1..];
    }
  }

  lemma {:induction false} ComponentsCanonical(b: seq<byte>, count: nat, budget: nat)
    requires ReadComponents(b, count, budget).Parsed?
    ensures
      var p := ReadComponents(b, count, budget);
      |p.value| == count && ByteCount(p.value) <= budget && b == PutComponents(p.value, p.rest)
    decreases count
  {
    hide ReadBytes, PutBytes;
    if count > 0 {
      BytesCanonical(b, budget);
      var first := ReadBytes(b, budget);
      ComponentsCanonical(first.rest, count - 1, budget - |first.value|);
      var path := ReadComponents(b, count, budget).value;
      assert path[1..] == ReadComponents(first.rest, count - 1, budget - |first.value|).value;
    }
  }

  function PutPath(path: Path, rest: seq<byte>): (r: seq<byte>)
    ensures |r| >= |rest|
  {
    PutVarint(|path|, PutComponents(path, rest))
  }

  function ReadPath(b: seq<byte>, limits: Limits): Parsed<Path> {
    var (count, rest) :- ReadLength(b, limits.maxComponents);
    if count == 0 then Bad(InvalidValue)
    else
      var (path, rest') :- ReadComponents(rest, count, limits.maxPath);
      if ValidPath(path) then Parsed(path, rest') else Bad(InvalidValue)
  }

  /** Limits come from `usize` configuration. */
  predicate LimitsOk(limits: Limits) {
    IsU64(limits.maxFrame) && IsU64(limits.maxPath) && IsU64(limits.maxComponents)
  }

  lemma PathRoundTrip(path: Path, rest: seq<byte>, limits: Limits)
    requires ValidPath(path) && PathFits(path, limits) && LimitsOk(limits)
    ensures ReadPath(PutPath(path, rest), limits) == Parsed(path, rest)
  {
    VarintRoundTrip(|path|, PutComponents(path, rest));
    ComponentsRoundTrip(path, rest, limits.maxPath);
  }

  lemma PathCanonical(b: seq<byte>, limits: Limits)
    requires ReadPath(b, limits).Parsed?
    ensures
      var p := ReadPath(b, limits);
      ValidPath(p.value) && PathFits(p.value, limits) && b == PutPath(p.value, p.rest)
  {
    VarintCanonical(b);
    var count := ReadLength(b, limits.maxComponents);
    ComponentsCanonical(count.rest, count.value, limits.maxPath);
  }

  function KindTag(kind: Kind): byte {
    match kind
    case DirectoryKind => 1
    case FileKind => 2
    case LinkKind => 3
  }

  function ReadByte(b: seq<byte>): Parsed<byte> {
    if b == [] then Bad(UnexpectedEof) else Parsed(b[0], b[1..])
  }

  function ReadKind(b: seq<byte>): Parsed<Kind> {
    var (tag, rest) :- ReadByte(b);
    if tag == 1 then Parsed(DirectoryKind, rest)
    else if tag == 2 then Parsed(FileKind, rest)
    else if tag == 3 then Parsed(LinkKind, rest)
    else Bad(InvalidValue)
  }

  function PutByte(tag: byte, rest: seq<byte>): (r: seq<byte>)
    ensures |r| == 1 + |rest| && r[0] == tag && r[1..] == rest
  {
    [tag] + rest
  }

  lemma ByteCanonical(b: seq<byte>)
    requires b != []
    ensures b == PutByte(b[0], b[1..])
  {
  }

  function PutDigest(digest: Option<Digest>, rest: seq<byte>): (r: seq<byte>)
    ensures |r| >= |rest|
  {
    if digest.None? then PutByte(0, rest) else PutByte(1, digest.value + rest)
  }

  function ReadDigest(b: seq<byte>): Parsed<Option<Digest>> {
    var (tag, rest) :- ReadByte(b);
    if tag == 0 then Parsed(None, rest)
    else if tag == 1 then
      var (digest, rest') :- Take(rest, 32);
      Parsed(Some(digest), rest')
    else Bad(InvalidValue)
  }

  function PutTarget(target: Option<seq<byte>>, rest: seq<byte>): (r: seq<byte>)
    ensures |r| >= |rest| && (target.Some? ==> |r| > |target.value|)
  {
    if target.None? then PutByte(0, rest) else PutByte(1, PutBytes(target.value, rest))
  }

  function ReadTarget(b: seq<byte>, limits: Limits): Parsed<Option<seq<byte>>> {
    var (tag, rest) :- ReadByte(b);
    if tag == 0 then Parsed(None, rest)
    else if tag == 1 then
      var (target, rest') :- ReadBytes(rest, limits.maxFrame);
      Parsed(Some(target), rest')
    else Bad(InvalidValue)
  }

  lemma DigestRoundTrip(digest: Option<Digest>, rest: seq<byte>)
    requires digest.Some? ==> |digest.value| == 32
    ensures ReadDigest(PutDigest(digest, rest)) == Parsed(digest, rest)
  {
  }

  lemma DigestCanonical(b: seq<byte>)
    requires ReadDigest(b).Parsed?
    ensures
      var p := ReadDigest(b);
      (p.value.Some? ==> |p.value.value| == 32) && b == PutDigest(p.value, p.rest)
  {
  }

  lemma TargetRoundTrip(target: Option<seq<byte>>, rest: seq<byte>, limits: Limits)
    requires LimitsOk(limits) && (target.Some? ==> |target.value| <= limits.maxFrame)
    ensures ReadTarget(PutTarget(target, rest), limits) == Parsed(target, rest)
  {
    if target.Some? { BytesRoundTrip(target.value, rest, limits.maxFrame); }
  }

  lemma TargetCanonical(b: seq<byte>, limits: Limits)
    requires ReadTarget(b, limits).Parsed?
    ensures var p := ReadTarget(b, limits); b == PutTarget(p.value, p.rest)
  {
    ByteCanonical(b);
    if b[0] == 1 { BytesCanonical(b[1..], limits.maxFrame); }
  }

  /** Kind, mode, time and size. */
  function PutMetadata(m: Metadata, rest: seq<byte>): (r: seq<byte>)
    requires IsI128(m.mtime)
    ensures |r| >= |rest|
  {
    PutByte(KindTag(m.kind), PutFixed(m.mode, 4, PutI128(m.mtime, PutFixed(m.size, 8, rest))))
  }

  function ReadMetadata(b: seq<byte>): Parsed<Metadata> {
    var (kind, rest) :- ReadKind(b);
    var (mode, rest) :- ReadFixed(rest, 4);
    var (mtime, rest) :- ReadI128(rest);
    var (size, rest) :- ReadFixed(rest, 8);
    Parsed(Metadata(kind, mode, mtime, size), rest)
  }

  lemma Widths()
    ensures Pow256(2) == 0x1_0000 && Pow256(4) == 0x1_0000_0000 && Pow256(8) == 0x1_0000_0000_0000_0000
  {
  }

  lemma MetadataRoundTrip(m: Metadata, rest: seq<byte>)
    requires IsU32(m.mode) && IsI128(m.mtime) && IsU64(m.size)
    ensures ReadMetadata(PutMetadata(m, rest)) == Parsed(m, rest)
  {
    Widths();
    var last := PutFixed(m.size, 8, rest);
    FixedRoundTrip(m.mode, 4, PutI128(m.mtime, last));
    I128RoundTrip(m.mtime, last);
    FixedRoundTrip(m.size, 8, rest);
  }

  lemma MetadataCanonical(b: seq<byte>)
    requires ReadMetadata(b).Parsed?
    ensures
      var p := ReadMetadata(b);
      && IsU32(p.value.mode) && IsI128(p.value.mtime) && IsU64(p.value.size)
      && b == PutMetadata(p.value, p.rest)
  {
    Widths();
    ByteCanonical(b);
    var mode := ReadFixed(b[1..], 4);
    FixedCanonical(b[1..], 4);
    I128Canonical(mode.rest);
    FixedCanonical(ReadI128(mode.rest).rest, 8);
  }

  function PutRecord(r: Record, rest: seq<byte>): (out: seq<byte>)
    requires RecordRepresentable(r)
    ensures |out| >= |rest| && (r.target.Some? ==> |out| > |r.target.value|)
  {
    PutPath(r.path, PutMetadata(r.metadata, PutDigest(r.digest, PutTarget(r.target, rest))))
  }

  function ReadRecord(b: seq<byte>, limits: Limits): Parsed<Record> {
    var (path, rest) :- ReadPath(b, limits);
    var (metadata, rest) :- ReadMetadata(rest);
    var (digest, rest) :- ReadDigest(rest);
    var (target, rest) :- ReadTarget(rest, limits);
    Parsed(Record(path, metadata, digest, target), rest)
  }

  /** What the reader needs of a record beyond its type. */
  predicate RecordFits(r: Record, limits: Limits) {
    PathFits(r.path, limits) && (r.target.Some? ==> |r.target.value| <= limits.maxFrame)
  }

  lemma RecordRoundTrip(r: Record, rest: seq<byte>, limits: Limits)
    requires RecordRepresentable(r) && RecordFits(r, limits) && LimitsOk(limits)
    ensures ReadRecord(PutRecord(r, rest), limits) == Parsed(r, rest)
  {
    var t := PutTarget(r.target, rest);
    var d := PutDigest(r.digest, t);
    PathRoundTrip(r.path, PutMetadata(r.metadata, d), limits);
    MetadataRoundTrip(r.metadata, d);
    DigestRoundTrip(r.digest, t);
    TargetRoundTrip(r.target, rest, limits);
  }

  lemma RecordCanonical(b: seq<byte>, limits: Limits)
    requires ReadRecord(b, limits).Parsed?
    ensures
      var p := ReadRecord(b, limits);
      RecordRepresentable(p.value) && PathFits(p.value.path, limits) && b == PutRecord(p.value, p.rest)
  {
    PathCanonical(b, limits);
    var path := ReadPath(b, limits);
    MetadataCanonical(path.rest);
    var metadata := ReadMetadata(path.rest);
    DigestCanonical(metadata.rest);
    TargetCanonical(ReadDigest(metadata.rest).rest, limits);
  }

  function OperationTag(op: Operation): byte {
    match op
    case UpsertDirectory(_, _) => 1
    case UpsertFile(_, _, update) => if update then 5 else 2
    case UpsertSymlink(_, _) => 3
    case Delete(_, _, _) => 4
  }

  function PutOperation(op: Operation, rest: seq<byte>): (r: seq<byte>)
    requires OperationRepresentable(op)
    ensures |r| >= |rest| && (!op.Delete? && op.record.target.Some? ==> |r| > |op.record.target.value|)
  {
    var body := if op.Delete? then PutPath(op.path, PutByte(KindTag(op.expectedKind), rest))
                else PutRecord(op.record, rest);
    PutByte(OperationTag(op), PutFixed(op.id, 8, body))
  }

  function ReadOperation(b: seq<byte>, limits: Limits): Parsed<Operation> {
    var (tag, rest) :- ReadByte(b);
    var (id, rest) :- ReadFixed(rest, 8);
    if tag == 1 || tag == 2 || tag == 3 || tag == 5 then
      var (record, rest) :- ReadRecord(rest, limits);
      Parsed(if tag == 1 then UpsertDirectory(id, record)
             else if tag == 3 then UpsertSymlink(id, record)
             else UpsertFile(id, record, tag == 5), rest)
    else if tag == 4 then
      var (path, rest) :- ReadPath(rest, limits);
      var (kind, rest) :- ReadKind(rest);
      Parsed(Delete(id, path, kind), rest)
    else Bad(InvalidValue)
  }

  predicate OperationFits(op: Operation, limits: Limits) {
    if op.Delete? then PathFits(op.path, limits) else RecordFits(op.record, limits)
  }

  lemma OperationRoundTrip(op: Operation, rest: seq<byte>, limits: Limits)
    requires OperationRepresentable(op) && OperationFits(op, limits) && LimitsOk(limits)
    ensures ReadOperation(PutOperation(op, rest), limits) == Parsed(op, rest)
  {
    hide ReadRecord, PutRecord, ReadPath, PutPath, ReadFixed, PutFixed, RecordRepresentable, ValidPath;
    Widths();
    if op.Delete? {
      var kind := PutByte(KindTag(op.expectedKind), rest);
      FixedRoundTrip(op.id, 8, PutPath(op.path, kind));
      PathRoundTrip(op.path, kind, limits);
    } else {
      FixedRoundTrip(op.id, 8, PutRecord(op.record, rest));
      RecordRoundTrip(op.record, rest, limits);
    }
  }

  lemma OperationCanonical(b: seq<byte>, limits: Limits)
    requires ReadOperation(b, limits).Parsed?
    ensures
      var p := ReadOperation(b, limits);
      && OperationRepresentable(p.value) && PathFits(p.value.At(), limits)
      && b == PutOperation(p.value, p.rest)
  {
    hide ReadRecord, PutRecord, ReadPath, PutPath, ReadFixed, PutFixed, RecordRepresentable, ValidPath;
    Widths();
    ByteCanonical(b);
    FixedCanonical(b[1..], 8);
    var id := ReadFixed(b[1..], 8);
    if b[0] == 4 {
      PathCanonical(id.rest, limits);
      ByteCanonical(ReadPath(id.rest, limits).rest);
    } else {
      RecordCanonical(id.rest, limits);
    }
  }

  function PhaseTag(phase: Phase): byte {
    match phase
    case Handshake => 1
    case Policy => 2
    case Indexing => 3
    case Planning => 4
    case Transferring => 5
    case ReadyToCommit => 6
    case Committing => 7
    case Complete => 8
    case Failed => 9
  }

  function PhaseOf(tag: byte): Option<Phase> {
    if tag == 1 then Some(Handshake) else if tag == 2 then Some(Policy) else if tag == 3 then Some(Indexing)
    else if tag == 4 then Some(Planning) else if tag == 5 then Some(Transferring)
    else if tag == 6 then Some(ReadyToCommit) else if tag == 7 then Some(Committing)
    else if tag == 8 then Some(Complete) else if tag == 9 then Some(Failed) else None
  }

  function ErrorTag(code: WireErrorCode): nat {
    match code
    case IncompatibleProtocol => 1
    case InvalidMessage => 2
    case Unauthorized => 3
    case InvalidPath => 4
    case IntegrityFailure => 5
    case ResourceLimit => 6
    case UnsupportedFilesystem => 7
    case Cancelled => 8
    case Internal => 9
  }

  function ErrorOf(tag: nat): Option<WireErrorCode> {
    if tag == 1 then Some(IncompatibleProtocol) else if tag == 2 then Some(InvalidMessage)
    else if tag == 3 then Some(Unauthorized) else if tag == 4 then Some(InvalidPath)
    else if tag == 5 then Some(IntegrityFailure) else if tag == 6 then Some(ResourceLimit)
    else if tag == 7 then Some(UnsupportedFilesystem) else if tag == 8 then Some(Cancelled)
    else if tag == 9 then Some(Internal) else None
  }

  function ReadPhase(b: seq<byte>): Parsed<Phase> {
    var (tag, rest) :- ReadByte(b);
    if PhaseOf(tag).Some? then Parsed(PhaseOf(tag).value, rest) else Bad(InvalidValue)
  }

  function PutPhase(phase: Phase, rest: seq<byte>): (r: seq<byte>)
    ensures |r| >= |rest|
  {
    PutByte(PhaseTag(phase), rest)
  }

  lemma PhaseRoundTrip(phase: Phase, rest: seq<byte>)
    ensures ReadPhase(PutPhase(phase, rest)) == Parsed(phase, rest)
  {
  }

  lemma PhaseCanonical(b: seq<byte>)
    requires ReadPhase(b).Parsed?
    ensures var p := ReadPhase(b); b == PutPhase(p.value, p.rest)
  {
  }

  function ReadCode(b: seq<byte>): Parsed<WireErrorCode> {
    var (tag, rest) :- ReadFixed(b, 2);
    if ErrorOf(tag).Some? then Parsed(ErrorOf(tag).value, rest) else Bad(InvalidValue)
  }

  function PutCode(code: WireErrorCode, rest: seq<byte>): (r: seq<byte>)
    ensures |r| >= |rest|
  {
    PutFixed(ErrorTag(code), 2, rest)
  }

  lemma CodeRoundTrip(code: WireErrorCode, rest: seq<byte>)
    ensures ReadCode(PutCode(code, rest)) == Parsed(code, rest)
  {
    Widths();
    FixedRoundTrip(ErrorTag(code), 2, rest);
  }

  lemma CodeCanonical(b: seq<byte>)
    requires ReadCode(b).Parsed?
    ensures var p := ReadCode(b); b == PutCode(p.value, p.rest)
  {
    FixedCanonical(b, 2);
  }

  function PutId(id: Option<nat>, rest: seq<byte>): (r: seq<byte>)
    ensures |r| >= |rest|
  {
    if id.None? then PutByte(0, rest) else PutByte(1, PutFixed(id.value, 8, rest))
  }

  function ReadId(b: seq<byte>): Parsed<Option<nat>> {
    var (tag, rest) :- ReadByte(b);
    if tag == 0 then Parsed(None, rest)
    else if tag == 1 then
      var (id, rest') :- ReadFixed(rest, 8);
      Parsed(Some(id), rest')
    else Bad(InvalidValue)
  }

  lemma IdRoundTrip(id: Option<nat>, rest: seq<byte>)
    requires id.Some? ==> IsU64(id.value)
    ensures ReadId(PutId(id, rest)) == Parsed(id, rest)
  {
    Widths();
    if id.Some? { FixedRoundTrip(id.value, 8, rest); }
  }

  lemma IdCanonical(b: seq<byte>)
    requires ReadId(b).Parsed?
    ensures var p := ReadId(b); (p.value.Some? ==> IsU64(p.value.value)) && b == PutId(p.value, p.rest)
  {
    Widths();
    ByteCanonical(b);
    if b[0] == 1 { FixedCanonical(b[1..], 8); }
  }

  function PutOptionalPath(path: Option<Path>, rest: seq<byte>): (r: seq<byte>)
    ensures |r| >= |rest|
  {
    if path.None? then PutByte(0, rest) else PutByte(1, PutPath(path.value, rest))
  }

  function ReadOptionalPath(b: seq<byte>, limits: Limits): Parsed<Option<Path>> {
    var (tag, rest) :- ReadByte(b);
    if tag == 0 then Parsed(None, rest)
    else if tag == 1 then
      var (path, rest') :- ReadPath(rest, limits);
      Parsed(Some(path), rest')
    else Bad(InvalidValue)
  }

  predicate OptionalPathFits(path: Option<Path>, limits: Limits) {
    path.Some? ==> PathFits(path.value, limits)
  }

  predicate OptionalPathValid(path: Option<Path>) {
    path.Some? ==> ValidPath(path.value)
  }

  lemma OptionalPathRoundTrip(path: Option<Path>, rest: seq<byte>, limits: Limits)
    requires LimitsOk(limits) && OptionalPathValid(path) && OptionalPathFits(path, limits)
    ensures ReadOptionalPath(PutOptionalPath(path, rest), limits) == Parsed(path, rest)
  {
    if path.Some? { PathRoundTrip(path.value, rest, limits); }
  }

  lemma OptionalPathCanonical(b: seq<byte>, limits: Limits)
    requires ReadOptionalPath(b, limits).Parsed?
    ensures
      var p := ReadOptionalPath(b, limits);
      OptionalPathValid(p.value) && OptionalPathFits(p.value, limits) && b == PutOptionalPath(p.value, p.rest)
  {
    ByteCanonical(b);
    if b[0] == 1 { PathCanonical(b[1..], limits); }
  }

  function ReadText(b: seq<byte>, limits: Limits): Parsed<seq<byte>> {
    var (text, rest) :- ReadBytes(b, limits.maxFrame);
    if Utf8(text) then Parsed(text, rest) else Bad(InvalidValue)
  }

  lemma TextRoundTrip(text: seq<byte>, rest: seq<byte>, limits: Limits)
    requires Utf8(text) && |text| <= limits.maxFrame && LimitsOk(limits)
    ensures ReadText(PutBytes(text, rest), limits) == Parsed(text, rest)
  {
    BytesRoundTrip(text, rest, limits.maxFrame);
  }

  lemma TextCanonical(b: seq<byte>, limits: Limits)
    requires ReadText(b, limits).Parsed?
    ensures var p := ReadText(b, limits); Utf8(p.value) && b == PutBytes(p.value, p.rest)
  {
    BytesCanonical(b, limits.maxFrame);
  }

  function PutFailure(f: WireFailure, rest: seq<byte>): (r: seq<byte>)
    ensures |r| > |f.message| + |rest|
  {
    PutCode(f.code, PutBytes(f.message, PutPhase(f.phase, PutId(f.operationId, PutOptionalPath(f.path, rest)))))
  }

  function ReadFailure(b: seq<byte>, limits: Limits): Parsed<WireFailure> {
    var (code, rest) :- ReadCode(b);
    var (message, rest) :- ReadText(rest, limits);
    var (phase, rest) :- ReadPhase(rest);
    var (id, rest) :- ReadId(rest);
    var (path, rest) :- ReadOptionalPath(rest, limits);
    Parsed(WireFailure(code, message, phase, id, path), rest)
  }

  lemma FailureRoundTrip(f: WireFailure, rest: seq<byte>, limits: Limits)
    requires FailureRepresentable(f) && OptionalPathFits(f.path, limits) && LimitsOk(limits)
    requires |f.message| <= limits.maxFrame
    ensures ReadFailure(PutFailure(f, rest), limits) == Parsed(f, rest)
  {
    hide ReadCode, PutCode, ReadText, PutBytes, ReadPhase, PutPhase, ReadId, PutId, ReadOptionalPath, PutOptionalPath;
    var path := PutOptionalPath(f.path, rest);
    var id := PutId(f.operationId, path);
    var phase := PutPhase(f.phase, id);
    CodeRoundTrip(f.code, PutBytes(f.message, phase));
    TextRoundTrip(f.message, phase, limits);
    PhaseRoundTrip(f.phase, id);
    IdRoundTrip(f.operationId, path);
    OptionalPathRoundTrip(f.path, rest, limits);
  }

  lemma FailureCanonical(b: seq<byte>, limits: Limits)
    requires ReadFailure(b, limits).Parsed?
    ensures
      var p := ReadFailure(b, limits);
      && FailureRepresentable(p.value) && OptionalPathFits(p.value.path, limits)
      && b == PutFailure(p.value, p.rest)
  {
    hide ReadCode, PutCode, ReadText, PutBytes, ReadPhase, PutPhase, ReadId, PutId, ReadOptionalPath, PutOptionalPath;
    hide Utf8, ValidPath, OptionalPathFits;
    CodeCanonical(b);
    var text := ReadCode(b).rest;
    TextCanonical(text, limits);
    var phase := ReadText(text, limits).rest;
    PhaseCanonical(phase);
    var id := ReadPhase(phase).rest;
    IdCanonical(id);
    OptionalPathCanonical(ReadId(id).rest, limits);
  }
}
