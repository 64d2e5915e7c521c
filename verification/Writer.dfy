/** The payload writer: bytes appended to a buffer, tied to the encodings by what follows them. */
module WriterModel {
  import opened Paths
  import opened Records
  import opened Wire
  import opened Radix
  import opened Messages
  import opened Fields
  import opened Codec
  import opened WireFormat

  /** Seven bits a step, low bits first, the high bit set on all but the last byte. */
  method PutVarintInto(value: nat, output: seq<byte>, ghost rest: seq<byte>) returns (out: seq<byte>)
    ensures out + rest == output + PutVarint(value, rest)
  {
    var v := value;
    out := output;
    while true
      invariant out + PutVarint(v, rest) == output + PutVarint(value, rest)
      decreases v
    {
      ghost var tail := PutVarint(v, rest);
      var low := v % 128;
      v := v / 128;
      var b: byte := if v != 0 then low + 128 else low;
      assert out + tail == out + [b] + tail[1..];
      out := out + [b];
      if v == 0 { return; }
    }
  }

  lemma CutTail(a: seq<byte>, b: seq<byte>, c: seq<byte>, rest: seq<byte>)
    requires a + rest == b + (c + rest)
    ensures a == b + c
  {
    assert b + (c + rest) == (b + c) + rest;
    assert a == (a + rest)[..|a|] && b + c == ((b + c) + rest)[..|b + c|];
  }

  /** `rest` stands for whatever is written next. */
  class Writer {
    const limits: Limits
    var bytes: seq<byte>

    constructor (limits: Limits, bytes: seq<byte>)
      ensures this.limits == limits && this.bytes == bytes
    {
      this.limits := limits;
      this.bytes := bytes;
    }

    method U8(value: byte, ghost rest: seq<byte>)
      modifies this
      ensures bytes + rest == old(bytes) + PutByte(value, rest)
    {
      bytes := bytes + [value];
    }

    /** `to_le_bytes` of an integer of the given width. */
    method Fixed(value: nat, width: nat, ghost rest: seq<byte>)
      modifies this
      ensures bytes + rest == old(bytes) + PutFixed(value, width, rest)
      ensures bytes == old(bytes) + Le(value, width)
    {
      hide Le;
      FixedIs(value, width, rest);
      var n, k := value, width;
      while k > 0
        invariant bytes + PutFixed(n, k, rest) == old(bytes) + PutFixed(value, width, rest)
      {
        ghost var tail := PutFixed(n, k, rest);
        assert bytes + tail == bytes + [n % 256] + tail[1..];
        bytes := bytes + [n % 256];
        n, k := n / 256, k - 1;
      }
      CutTail(bytes, old(bytes), Le(value, width), rest);
    }

    method I128(value: int, ghost rest: seq<byte>)
      requires IsI128(value)
      modifies this
      ensures bytes + rest == old(bytes) + PutI128(value, rest)
    {
      Fixed(if value < 0 then value + 2 * I128_HALF else value, 16, rest);
    }

    method Raw(value: seq<byte>, ghost rest: seq<byte>)
      modifies this
      ensures bytes + rest == old(bytes) + (value + rest)
    {
      bytes := bytes + value;
    }

    method Length(value: nat, ghost rest: seq<byte>)
      modifies this
      ensures bytes + rest == old(bytes) + PutVarint(value, rest)
    {
      bytes := PutVarintInto(value, bytes, rest);
    }

    method Bytes(value: seq<byte>, ghost rest: seq<byte>)
      modifies this
      ensures bytes + rest == old(bytes) + PutBytes(value, rest)
    {
      Length(|value|, value + rest);
      Raw(value, rest);
    }

    method TotalOf(path: Path) returns (total: nat)
      ensures total == ByteCount(path)
    {
      total := 0;
      for i := 0 to |path|
        invariant total + ByteCount(path[i..]) == ByteCount(path)
      {
        assert path[i..][1..] == path[i + 1..];
        total := total + |path[i]|;
      }
    }

    /** Refused exactly when a bound is exceeded. */
    method WritePath(path: Path, ghost rest: seq<byte>) returns (ok: bool)
      modifies this
      ensures ok == PathFits(path, limits)
      ensures ok ==> bytes + rest == old(bytes) + PutPath(path, rest)
    {
      hide PutBytes, PutVarint;
      if |path| > limits.maxComponents { return false; }
      var total := TotalOf(path);
      if total > limits.maxPath { return false; }
      Length(|path|, PutComponents(path, rest));
      for i := 0 to |path|
        invariant bytes + PutComponents(path[i..], rest) == old(bytes) + PutPath(path, rest)
      {
        assert path[i..][1..] == path[i + 1..];
        Bytes(path[i], PutComponents(path[i + 1..], rest));
      }
      return true;
    }

    method WriteKind(kind: Kind, ghost rest: seq<byte>)
      modifies this
      ensures bytes + rest == old(bytes) + PutByte(KindTag(kind), rest)
    {
      U8(KindTag(kind), rest);
    }

    method WriteMetadata(m: Metadata, ghost rest: seq<byte>)
      requires IsI128(m.mtime)
      modifies this
      ensures bytes + rest == old(bytes) + PutMetadata(m, rest)
    {
      hide PutByte, PutFixed, PutI128;
      ghost var size := PutFixed(m.size, 8, rest);
      ghost var time := PutI128(m.mtime, size);
      WriteKind(m.kind, PutFixed(m.mode, 4, time));
      Fixed(m.mode, 4, time);
      I128(m.mtime, size);
      Fixed(m.size, 8, rest);
    }

    method WriteDigest(digest: Option<Digest>, ghost rest: seq<byte>)
      modifies this
      ensures bytes + rest == old(bytes) + PutDigest(digest, rest)
    {
      hide PutByte;
      match digest {
        case None => U8(0, rest);
        case Some(value) =>
          U8(1, value + rest);
          Raw(value, rest);
      }
    }

    method WriteTarget(target: Option<seq<byte>>, ghost rest: seq<byte>)
      modifies this
      ensures bytes + rest == old(bytes) + PutTarget(target, rest)
    {
      hide PutByte, PutBytes;
      match target {
        case None => U8(0, rest);
        case Some(value) =>
          U8(1, PutBytes(value, rest));
          Bytes(value, rest);
      }
    }

    method WriteRecord(r: Record, ghost rest: seq<byte>) returns (ok: bool)
      requires RecordRepresentable(r)
      modifies this
      ensures ok == PathFits(r.path, limits)
      ensures ok ==> bytes + rest == old(bytes) + PutRecord(r, rest)
    {
      hide PutPath, PutMetadata, PutDigest, PutTarget, PathFits;
      ghost var target := PutTarget(r.target, rest);
      ghost var digest := PutDigest(r.digest, target);
      ok := WritePath(r.path, PutMetadata(r.metadata, digest));
      if !ok { return; }
      WriteMetadata(r.metadata, digest);
      WriteDigest(r.digest, target);
      WriteTarget(r.target, rest);
    }

    method WriteOperation(op: Operation, ghost rest: seq<byte>) returns (ok: bool)
      requires OperationRepresentable(op)
      modifies this
      ensures ok == PathFits(op.At(), limits)
      ensures ok ==> bytes + rest == old(bytes) + PutOperation(op, rest)
    {
      hide PutPath, PutRecord, PutByte, PutFixed, PathFits;
      if op.Delete? {
        ghost var kind := PutByte(KindTag(op.expectedKind), rest);
        U8(4, PutFixed(op.id, 8, PutPath(op.path, kind)));
        Fixed(op.id, 8, PutPath(op.path, kind));
        ok := WritePath(op.path, kind);
        if !ok { return; }
        WriteKind(op.expectedKind, rest);
      } else {
        U8(OperationTag(op), PutFixed(op.id, 8, PutRecord(op.record, rest)));
        Fixed(op.id, 8, PutRecord(op.record, rest));
        ok := WriteRecord(op.record, rest);
      }
    }

    method WriteId(id: Option<nat>, ghost rest: seq<byte>)
      modifies this
      ensures bytes + rest == old(bytes) + PutId(id, rest)
    {
      hide PutByte, PutFixed;
      match id {
        case None => U8(0, rest);
        case Some(value) =>
          U8(1, PutFixed(value, 8, rest));
          Fixed(value, 8, rest);
      }
    }

    method WriteFailure(f: WireFailure, ghost rest: seq<byte>) returns (ok: bool)
      modifies this
      ensures ok == OptionalPathFits(f.path, limits)
      ensures ok ==> bytes + rest == old(bytes) + PutFailure(f, rest)
    {
      hide PutPath, PutBytes, PutByte, PutFixed, PathFits, PutId;
      ghost var path := PutOptionalPath(f.path, rest);
      ghost var id := PutId(f.operationId, path);
      ghost var phase := PutPhase(f.phase, id);
      Fixed(ErrorTag(f.code), 2, PutBytes(f.message, phase));
      Bytes(f.message, phase);
      U8(PhaseTag(f.phase), id);
      WriteId(f.operationId, path);
      match f.path {
        case None =>
          U8(0, rest);
          ok := true;
        case Some(value) =>
          U8(1, PutPath(value, rest));
          ok := WritePath(value, rest);
      }
    }

    method WriteRequest(id: nat, path: Path, ghost rest: seq<byte>) returns (ok: bool)
      modifies this
      ensures ok == PathFits(path, limits)
      ensures ok ==> bytes + rest == old(bytes) + PutFixed(id, 8, PutPath(path, rest))
    {
      hide PutPath, PutFixed, PathFits;
      Fixed(id, 8, PutPath(path, rest));
      ok := WritePath(path, rest);
    }

    method WriteFields(m: Message, ghost rest: seq<byte>) returns (ok: bool)
      requires Representable(m)
      modifies this
      ensures ok == WriterAccepts(m, limits)
      ensures ok ==> bytes + rest == old(bytes) + PutFields(m, rest)
    {
      hide PutPath, PutFixed, PutBytes, PutOperation, PutFailure, PutRecord, PathFits;
      ok := true;
      match m {
        case StartSync(rootId) => Bytes(rootId, rest);
        case PlannedOperation(operation) => ok := WriteOperation(operation, rest);
        case Failure(failure) => ok := WriteFailure(failure, rest);
        case IndexRecord(record) => ok := WriteRecord(record, rest);
        case UpdateRequest(id, path) => ok := WriteRequest(id, path, rest);
        case CreateRequest(id, path) => ok := WriteRequest(id, path, rest);
        case WholeFile(value) => Bytes(value, rest);
        case Signature(value) => Bytes(value, rest);
        case Delta(value) => Bytes(value, rest);
        case TransferAccepted(id) => Fixed(id, 8, rest);
        case _ =>
      }
    }
  }

  /** One complete frame, or the limit it breaks. */
  method EncodeFrame(m: Message, limits: Limits) returns (r: Coded<seq<byte>>)
    requires Representable(m)
    ensures r == Encode(m, limits)
    ensures r.Ok? <==> WithinLimits(m, limits)
    ensures r.Ok? ==> r.value == FrameBytes(m)
  {
    EncodeIs(m, limits);
    hide WithinLimits, FrameBytes;
    hide PutFields, WriterAccepts, Representable, PutFixed, PutVarint;
    ghost var fields := PutFields(m, []);
    var writer := new Writer(limits, []);
    writer.U8(KindByte(m), PutFixed(CURRENT_VERSION, 2, fields));
    writer.Fixed(CURRENT_VERSION, 2, fields);
    var ok := writer.WriteFields(m, []);
    if !ok { return Err(LimitExceeded); }
    var payload := writer.bytes;
    assert payload == payload + [] && [] + Payload(m) == Payload(m);
    if |payload| > limits.maxFrame { return Err(FrameTooLarge(|payload|, limits.maxFrame)); }
    var frame := PutVarintInto(|payload|, [], payload);
    frame := frame + payload;
    assert [] + PutVarint(|payload|, payload) == PutVarint(|payload|, payload);
    return Ok(frame);
  }
}
