/** The payload reader: an offset that moves over one frame, tied to what the encodings read. */
module ReaderModel {
  import opened Paths
  import opened Records
  import opened Wire
  import opened Radix
  import opened Messages
  import opened Fields
  import opened Codec
  import opened WireFormat

  /** `bits << (index * 7)`. */
  function Shifted(bits: nat, index: nat): nat {
    Pow128(index) * bits
  }

  /** What is read after `index` bytes completes the value gathered so far. */
  function Gathered(value: nat, index: nat, later: Parsed<nat>): Parsed<nat> {
    if later.Bad? then later else Parsed(value + Shifted(later.value, index), later.rest)
  }

  lemma GatherOne(value: nat, index: nat, low: nat, later: Parsed<nat>)
    requires later.Parsed?
    ensures Gathered(value, index, Parsed(low + 128 * later.value, later.rest))
         == Gathered(value + Shifted(low, index), index + 1, later)
  {
    var p, h := Pow128(index), later.value;
    assert p * (low + 128 * h) == p * low + 128 * p * h;
  }

  /** One turn of the loop: more is read exactly when this byte's high bit is set. */
  lemma ReadOne(value: nat, index: nat, b: seq<byte>)
    requires b != [] && index < 10 && !(index == 9 && b[0] > 1) && b[0] >= 128
    ensures Gathered(value, index, ReadVarintFrom(b, index))
         == Gathered(value + Shifted(b[0] - 128, index), index + 1, ReadVarintFrom(b[1..], index + 1))
  {
    var later := ReadVarintFrom(b[1..], index + 1);
    if later.Parsed? { GatherOne(value, index, b[0] - 128, later); }
  }

  /** The value and the number of bytes it took. */
  method ParseVarint(input: seq<byte>) returns (r: Coded<(nat, nat)>)
    ensures
      match ReadVarint(input)
      case Bad(error) => r == Err(error)
      case Parsed(value, rest) => r.Ok? && r.value.0 == value && r.value.1 <= |input| && input[r.value.1..] == rest
  {
    hide Pow128, Shifted;
    var value: nat := 0;
    var count := if |input| < 10 then |input| else 10;
    assert input[0..] == input;
    GatherNone(ReadVarint(input));
    for index := 0 to count
      invariant ReadVarint(input) == Gathered(value, index, ReadVarintFrom(input[index..], index))
    {
      var b := input[index];
      ghost var tail := input[index..];
      assert tail[0] == b && tail[1..] == input[index + 1..];
      if index == 9 && b > 1 { return Err(VarintOverflow); }
      if b < 128 {
        if index > 0 && b == 0 { return Err(NonCanonicalVarint); }
        return Ok((value + Shifted(b, index), index + 1));
      }
      ReadOne(value, index, tail);
      value := value + Shifted(b - 128, index);
    }
    return Err(if |input| >= 10 then VarintOverflow else UnexpectedEof);
  }

  lemma GatherNone(p: Parsed<nat>)
    ensures Gathered(0, 0, p) == p
  {
  }

  class Reader {
    const bytes: seq<byte>
    const limits: Limits
    var offset: nat

    ghost predicate Valid()
      reads this
    {
      offset <= |bytes|
    }

    ghost function Left(): seq<byte>
      requires Valid()
      reads this
    {
      bytes[offset..]
    }

    /** The outcome of a step that should have read `p` off what was left. */
    ghost predicate Took<T(!new)>(p: Parsed<T>, r: Coded<T>)
      reads this
    {
      && Valid()
      && match p
         case Bad(error) => r == Err(error)
         case Parsed(value, rest) => r == Ok(value) && Left() == rest
    }

    constructor (bytes: seq<byte>, limits: Limits)
      ensures Valid() && this.bytes == bytes && this.limits == limits && Left() == bytes
    {
      this.bytes := bytes;
      this.limits := limits;
      offset := 0;
    }

    method TakeBytes(length: nat) returns (r: Coded<seq<byte>>)
      requires Valid()
      modifies this
      ensures Took(Take(old(Left()), length), r)
    {
      if offset + length > |bytes| { return Err(UnexpectedEof); }
      ghost var left := Left();
      r := Ok(bytes[offset..offset + length]);
      assert r.value == left[..length];
      offset := offset + length;
      assert Left() == left[length..];
    }

    method Finish() returns (ok: bool)
      requires Valid()
      ensures ok == (Left() == [])
    {
      return offset == |bytes|;
    }

    method U8() returns (r: Coded<byte>)
      requires Valid()
      modifies this
      ensures Took(ReadByte(old(Left())), r)
    {
      if offset == |bytes| { return Err(UnexpectedEof); }
      r := Ok(bytes[offset]);
      offset := offset + 1;
    }

    /** `from_le_bytes` of the next `width` bytes. */
    method Fixed(width: nat) returns (r: Coded<nat>)
      requires Valid()
      modifies this
      ensures Took(ReadFixed(old(Left()), width), r)
      ensures r.Ok? <==> width <= |old(Left())|
      ensures r.Ok? ==> old(Left()) == Le(r.value, width) + Left()
    {
      ghost var left := Left();
      hide Le;
      if offset + width > |bytes| {
        FixedNeedsAll(left, width);
        return Err(UnexpectedEof);
      }
      var value: nat, k: nat := 0, width;
      while k > 0
        invariant k <= width && unchanged(this)
        invariant ReadFixed(left[k..], width - k) == Parsed(value, left[width..])
      {
        k := k - 1;
        assert left[k..][1..] == left[k + 1..] && left[k..][0] == bytes[offset + k];
        value := bytes[offset + k] + 256 * value;
      }
      assert left[0..] == left;
      FixedReads(left, width);
      hide ReadFixed;
      offset := offset + width;
      assert Left() == left[width..];
      return Ok(value);
    }

    method I128() returns (r: Coded<int>)
      requires Valid()
      modifies this
      ensures Took(ReadI128(old(Left())), r)
    {
      hide ReadFixed;
      var raw := Fixed(16);
      if raw.Err? { return Err(raw.error); }
      return Ok(if raw.value < I128_HALF then raw.value else raw.value - 2 * I128_HALF);
    }

    method BoundedLength(maximum: nat) returns (r: Coded<nat>)
      requires Valid()
      modifies this
      ensures Took(ReadLength(old(Left()), maximum), r)
    {
      hide ReadVarint;
      ghost var left := Left();
      var parsed := ParseVarint(bytes[offset..]);
      if parsed.Err? { return Err(parsed.error); }
      offset := offset + parsed.value.1;
      assert Left() == left[parsed.value.1..];
      return if parsed.value.0 > maximum then Err(LimitExceeded) else Ok(parsed.value.0);
    }

    method BytesUpTo(maximum: nat) returns (r: Coded<seq<byte>>)
      requires Valid()
      modifies this
      ensures Took(ReadBytes(old(Left()), maximum), r)
    {
      hide ReadLength, Take;
      var length := BoundedLength(maximum);
      if length.Err? { return Err(length.error); }
      r := TakeBytes(length.value);
    }

    method Text() returns (r: Coded<seq<byte>>)
      requires Valid()
      modifies this
      ensures Took(ReadText(old(Left()), limits), r)
    {
      hide ReadBytes, Utf8;
      r := BytesUpTo(limits.maxFrame);
      if r.Ok? && !Utf8(r.value) { return Err(InvalidValue); }
    }

    method ReadPathAt() returns (r: Coded<Path>)
      requires Valid()
      modifies this
      ensures Took(ReadPath(old(Left()), limits), r)
    {
      hide ReadLength, ReadBytes, ValidPath;
      var count := BoundedLength(limits.maxComponents);
      if count.Err? { return Err(count.error); }
      if count.value == 0 { return Err(InvalidValue); }
      ghost var whole := ReadComponents(Left(), count.value, limits.maxPath);
      var total: nat, components: Path := 0, [];
      PrependNone(whole);
      for i := 0 to count.value
        invariant Valid() && total <= limits.maxPath
        invariant whole == Prepend(components, ReadComponents(Left(), count.value - i, limits.maxPath - total))
      {
        ghost var left := Left();
        var component := BytesUpTo(limits.maxPath - total);
        if component.Err? { return Err(component.error); }
        ghost var later := ReadComponents(Left(), count.value - i - 1, limits.maxPath - total - |component.value|);
        PrependOne(components, component.value, later);
        total := total + |component.value|;
        components := components + [component.value];
      }
      assert components + [] == components;
      return if ValidPath(components) then Ok(components) else Err(InvalidValue);
    }

    method ReadKindAt() returns (r: Coded<Kind>)
      requires Valid()
      modifies this
      ensures Took(ReadKind(old(Left())), r)
    {
      var tag := U8();
      if tag.Err? { return Err(tag.error); }
      return match tag.value
        case 1 => Ok(DirectoryKind)
        case 2 => Ok(FileKind)
        case 3 => Ok(LinkKind)
        case _ => Err(InvalidValue);
    }

    method ReadMetadataAt() returns (r: Coded<Metadata>)
      requires Valid()
      modifies this
      ensures Took(ReadMetadata(old(Left())), r)
    {
      hide ReadKind, ReadFixed, ReadI128;
      var kind := ReadKindAt();
      if kind.Err? { return Err(kind.error); }
      var mode := Fixed(4);
      if mode.Err? { return Err(mode.error); }
      var mtime := I128();
      if mtime.Err? { return Err(mtime.error); }
      var size := Fixed(8);
      if size.Err? { return Err(size.error); }
      return Ok(Metadata(kind.value, mode.value, mtime.value, size.value));
    }

    /** The tag in front of an optional field. */
    method Present() returns (r: Coded<bool>)
      requires Valid()
      modifies this
      ensures
        var tag := ReadByte(old(Left()));
        Took(if tag.Bad? then Bad(tag.error) else if tag.value > 1 then Bad(InvalidValue)
             else Parsed(tag.value == 1, tag.rest), r)
    {
      var tag := U8();
      if tag.Err? { return Err(tag.error); }
      return if tag.value == 0 then Ok(false) else if tag.value == 1 then Ok(true) else Err(InvalidValue);
    }

    method ReadDigestAt() returns (r: Coded<Option<Digest>>)
      requires Valid()
      modifies this
      ensures Took(ReadDigest(old(Left())), r)
    {
      hide Take;
      var present := Present();
      if present.Err? { return Err(present.error); }
      if !present.value { return Ok(None); }
      var digest := TakeBytes(32);
      return if digest.Err? then Err(digest.error) else Ok(Some(digest.value));
    }

    method ReadTargetAt() returns (r: Coded<Option<seq<byte>>>)
      requires Valid()
      modifies this
      ensures Took(ReadTarget(old(Left()), limits), r)
    {
      hide ReadBytes;
      var present := Present();
      if present.Err? { return Err(present.error); }
      if !present.value { return Ok(None); }
      var target := BytesUpTo(limits.maxFrame);
      return if target.Err? then Err(target.error) else Ok(Some(target.value));
    }

    method ReadIdAt() returns (r: Coded<Option<nat>>)
      requires Valid()
      modifies this
      ensures Took(ReadId(old(Left())), r)
    {
      hide ReadFixed;
      var present := Present();
      if present.Err? { return Err(present.error); }
      if !present.value { return Ok(None); }
      var id := Fixed(8);
      return if id.Err? then Err(id.error) else Ok(Some(id.value));
    }

    method ReadOptionalPathAt() returns (r: Coded<Option<Path>>)
      requires Valid()
      modifies this
      ensures Took(ReadOptionalPath(old(Left()), limits), r)
    {
      hide ReadPath;
      var present := Present();
      if present.Err? { return Err(present.error); }
      if !present.value { return Ok(None); }
      var path := ReadPathAt();
      return if path.Err? then Err(path.error) else Ok(Some(path.value));
    }

    method ReadRecordAt() returns (r: Coded<Record>)
      requires Valid()
      modifies this
      ensures Took(ReadRecord(old(Left()), limits), r)
    {
      hide ReadPath, ReadMetadata, ReadDigest, ReadTarget;
      var path := ReadPathAt();
      if path.Err? { return Err(path.error); }
      var metadata := ReadMetadataAt();
      if metadata.Err? { return Err(metadata.error); }
      var digest := ReadDigestAt();
      if digest.Err? { return Err(digest.error); }
      var target := ReadTargetAt();
      if target.Err? { return Err(target.error); }
      return Ok(Record(path.value, metadata.value, digest.value, target.value));
    }

    method ReadOperationAt() returns (r: Coded<Operation>)
      requires Valid()
      modifies this
      ensures Took(ReadOperation(old(Left()), limits), r)
    {
      hide ReadPath, ReadRecord, ReadKind, ReadFixed;
      var tag := U8();
      if tag.Err? { return Err(tag.error); }
      var id := Fixed(8);
      if id.Err? { return Err(id.error); }
      if tag.value == 1 || tag.value == 2 || tag.value == 3 || tag.value == 5 {
        var record := ReadRecordAt();
        if record.Err? { return Err(record.error); }
        return Ok(if tag.value == 1 then UpsertDirectory(id.value, record.value)
                  else if tag.value == 3 then UpsertSymlink(id.value, record.value)
                  else UpsertFile(id.value, record.value, tag.value == 5));
      } else if tag.value == 4 {
        var path := ReadPathAt();
        if path.Err? { return Err(path.error); }
        var kind := ReadKindAt();
        if kind.Err? { return Err(kind.error); }
        return Ok(Delete(id.value, path.value, kind.value));
      }
      return Err(InvalidValue);
    }

    method ReadCodeAt() returns (r: Coded<WireErrorCode>)
      requires Valid()
      modifies this
      ensures Took(ReadCode(old(Left())), r)
    {
      hide ReadFixed;
      var tag := Fixed(2);
      if tag.Err? { return Err(tag.error); }
      return if ErrorOf(tag.value).Some? then Ok(ErrorOf(tag.value).value) else Err(InvalidValue);
    }

    method ReadPhaseAt() returns (r: Coded<Phase>)
      requires Valid()
      modifies this
      ensures Took(ReadPhase(old(Left())), r)
    {
      var tag := U8();
      if tag.Err? { return Err(tag.error); }
      return if PhaseOf(tag.value).Some? then Ok(PhaseOf(tag.value).value) else Err(InvalidValue);
    }

    method ReadFailureAt() returns (r: Coded<WireFailure>)
      requires Valid()
      modifies this
      ensures Took(ReadFailure(old(Left()), limits), r)
    {
      hide ReadCode, ReadText, ReadPhase, ReadId, ReadOptionalPath;
      var code := ReadCodeAt();
      if code.Err? { return Err(code.error); }
      var message := Text();
      if message.Err? { return Err(message.error); }
      var phase := ReadPhaseAt();
      if phase.Err? { return Err(phase.error); }
      var id := ReadIdAt();
      if id.Err? { return Err(id.error); }
      var path := ReadOptionalPathAt();
      if path.Err? { return Err(path.error); }
      return Ok(WireFailure(code.value, message.value, phase.value, id.value, path.value));
    }

    method ReadRequestAt() returns (r: Coded<(nat, Path)>)
      requires Valid()
      modifies this
      ensures Took(ReadRequest(old(Left()), limits), r)
    {
      hide ReadFixed, ReadPath;
      var id := Fixed(8);
      if id.Err? { return Err(id.error); }
      var path := ReadPathAt();
      return if path.Err? then Err(path.error) else Ok((id.value, path.value));
    }

    method ReadControlAt(kind: byte) returns (r: Coded<Message>)
      requires Valid()
      modifies this
      ensures Took(ReadControl(kind, old(Left()), limits), r)
    {
      hide ReadText, ReadOperation, ReadFailure;
      match kind {
        case 3 =>
          var rootId := Text();
          return if rootId.Err? then Err(rootId.error) else Ok(StartSync(rootId.value));
        case 7 => return Ok(StartAccepted);
        case 10 =>
          var operation := ReadOperationAt();
          return if operation.Err? then Err(operation.error) else Ok(PlannedOperation(operation.value));
        case 11 => return Ok(PlanEnd);
        case 13 => return Ok(CompleteAck);
        case 15 =>
          var failure := ReadFailureAt();
          return if failure.Err? then Err(failure.error) else Ok(Failure(failure.value));
        case _ => return Err(UnknownMessageKind(kind));
      }
    }

    method ReadIndexAt(kind: byte) returns (r: Coded<Message>)
      requires Valid()
      modifies this
      ensures Took(ReadIndex(kind, old(Left()), limits), r)
    {
      hide ReadRecord;
      match kind {
        case 1 =>
          var record := ReadRecordAt();
          return if record.Err? then Err(record.error) else Ok(IndexRecord(record.value));
        case 2 => return Ok(IndexEnd);
        case _ => return Err(UnknownMessageKind(kind));
      }
    }

    method ReadTransferAt(kind: byte) returns (r: Coded<Message>)
      requires Valid()
      modifies this
      ensures Took(ReadTransfer(kind, old(Left()), limits), r)
    {
      hide ReadRequest, ReadBytes, ReadFixed;
      if kind == 1 || kind == 7 {
        var request := ReadRequestAt();
        if request.Err? { return Err(request.error); }
        var (id, path) := request.value;
        return Ok(if kind == 1 then UpdateRequest(id, path) else CreateRequest(id, path));
      } else if kind == 2 || kind == 4 || kind == 8 {
        var value := BytesUpTo(limits.maxFrame);
        if value.Err? { return Err(value.error); }
        return Ok(if kind == 2 then Signature(value.value)
                  else if kind == 4 then Delta(value.value) else WholeFile(value.value));
      } else if kind == 3 {
        return Ok(SignatureEnd);
      } else if kind == 5 {
        return Ok(TransferEnd);
      } else if kind == 6 {
        var id := Fixed(8);
        return if id.Err? then Err(id.error) else Ok(TransferAccepted(id.value));
      }
      return Err(UnknownMessageKind(kind));
    }

    method ReadPrefixAt() returns (r: Coded<byte>)
      requires Valid()
      modifies this
      ensures Took(ReadPrefix(old(Left())), r)
    {
      hide ReadByte, ReadFixed;
      var kind := U8();
      if kind.Err? { return Err(kind.error); }
      var version := Fixed(2);
      if version.Err? { return Err(version.error); }
      return if version.value != CURRENT_VERSION then Err(UnsupportedVersion(version.value)) else Ok(kind.value);
    }

    method ReadFieldsAt(category: Category, kind: byte) returns (r: Coded<Message>)
      requires Valid()
      modifies this
      ensures Took(ReadFields(category, kind, old(Left()), limits), r)
    {
      hide ReadControl, ReadIndex, ReadTransfer;
      match category {
        case ControlStream => r := ReadControlAt(kind);
        case IndexStream => r := ReadIndexAt(kind);
        case TransferStream => r := ReadTransferAt(kind);
      }
    }

    /** Everything that is left, as one message. */
    method ReadMessage(category: Category) returns (r: Coded<Message>)
      requires Valid()
      modifies this
      ensures r == DecodePayload(category, old(Left()), limits)
    {
      hide ReadPrefix, ReadFields;
      var kind := ReadPrefixAt();
      if kind.Err? { return Err(kind.error); }
      var message := ReadFieldsAt(category, kind.value);
      if message.Err? { return message; }
      var ended := Finish();
      return if ended then message else Err(TrailingBytes);
    }
  }

  lemma {:induction false} FixedNeedsAll(b: seq<byte>, width: nat)
    requires |b| < width
    ensures ReadFixed(b, width) == Bad(UnexpectedEof)
  {
    if b != [] { FixedNeedsAll(b[1..], width - 1); }
  }

  /** Components read earlier in front of those read later. */
  function Prepend(components: Path, later: Parsed<Path>): Parsed<Path> {
    if later.Bad? then later else Parsed(components + later.value, later.rest)
  }

  lemma PrependNone(later: Parsed<Path>)
    ensures Prepend([], later) == later
  {
    if later.Parsed? { assert [] + later.value == later.value; }
  }

  lemma PrependOne(components: Path, component: Name, later: Parsed<Path>)
    ensures Prepend(components, Prepend([component], later)) == Prepend(components + [component], later)
  {
    if later.Parsed? {
      assert components + ([component] + later.value) == components + [component] + later.value;
    }
  }

  method DecodePayloadOf(category: Category, payload: seq<byte>, limits: Limits) returns (r: Coded<Message>)
    ensures r == DecodePayload(category, payload, limits)
  {
    hide DecodePayload;
    var reader := new Reader(payload, limits);
    r := reader.ReadMessage(category);
  }

  /** Exactly one complete frame. */
  method DecodeFrame(category: Category, wire: seq<byte>, limits: Limits) returns (r: Coded<Message>)
    ensures r == Decode(category, wire, limits)
    ensures r.Ok? ==> Representable(r.value) && StreamOf(r.value) == category && wire == FrameBytes(r.value)
    ensures LimitsOk(limits) ==>
              forall m :: r == Ok(m) <==>
                Representable(m) && StreamOf(m) == category && WithinLimits(m, limits) && wire == FrameBytes(m)
  {
    DecodedFrame(category, wire, limits);
    hide Representable, FrameBytes, WithinLimits;
    hide ReadVarint, DecodePayload;
    var header := ParseVarint(wire);
    if header.Err? { return Err(header.error); }
    var (declared, used) := header.value;
    var refused := CheckFrameLength(declared, limits);
    if refused.Some? { return Err(refused.value); }
    if |wire| < used + declared { return Err(UnexpectedEof); }
    if |wire| != used + declared { return Err(TrailingBytes); }
    r := DecodePayloadOf(category, wire[used..], limits);
  }

  lemma DecodedFrame(category: Category, wire: seq<byte>, limits: Limits)
    ensures
      var r := Decode(category, wire, limits);
      && (r.Ok? ==> Representable(r.value) && StreamOf(r.value) == category && wire == FrameBytes(r.value))
      && (LimitsOk(limits) ==>
            forall m :: r == Ok(m) <==>
              Representable(m) && StreamOf(m) == category && WithinLimits(m, limits) && wire == FrameBytes(m))
  {
    hide Decode, Representable, FrameBytes, WithinLimits, LimitsOk;
    var r := Decode(category, wire, limits);
    if r.Ok? {
      DecodeEncode(category, wire, limits);
      EncodeIs(r.value, limits);
    }
    if LimitsOk(limits) {
      forall m ensures r == Ok(m) <==>
        Representable(m) && StreamOf(m) == category && WithinLimits(m, limits) && wire == FrameBytes(m)
      {
        DecodeIs(category, wire, limits, m);
      }
    }
  }

  /** What a fixed field is read off. */
  lemma {:induction false} FixedReads(b: seq<byte>, width: nat)
    ensures ReadFixed(b, width).Parsed? <==> width <= |b|
    ensures
      var p := ReadFixed(b, width);
      p.Parsed? ==> b == Le(p.value, width) + p.rest
  {
    if width > 0 && b != [] { FixedReads(b[1..], width - 1); }
    if ReadFixed(b, width).Parsed? {
      FixedCanonical(b, width);
      FixedIs(ReadFixed(b, width).value, width, ReadFixed(b, width).rest);
    }
  }
}
