/**
 * The hand-written DER subset behind certificate fingerprints: definite lengths in their shortest
 * form (sections 8.1.3 and 10.1 of ITU-T X.690), and where the public key sits in a certificate
 * (section 4.1 of RFC 5280).
 */
module Der {
  import opened Paths

  const USIZE_BYTES: nat := 8
  const USIZE_LIMIT: nat := 0x1_0000_0000_0000_0000

  /** A slice's length fits a usize. */
  predicate Addressable(s: seq<byte>) { |s| < USIZE_LIMIT }

  /** Base 256, most significant first, no leading zero. */
  function Minimal(n: nat): seq<byte> {
    if n == 0 then [] else Minimal(n / 256) + [n % 256]
  }

  function ValueOf(digits: seq<byte>): nat {
    if digits == [] then 0 else 256 * ValueOf(digits[..|digits| - 1]) + digits[|digits| - 1]
  }

  lemma {:induction false} MinimalValue(n: nat)
    ensures ValueOf(Minimal(n)) == n
    ensures n > 0 ==> Minimal(n) != [] && Minimal(n)[0] != 0
  {
    if n > 0 {
      MinimalValue(n / 256);
      assert Minimal(n)[..|Minimal(n)| - 1] == Minimal(n / 256);
    }
  }

  /** Digits without a leading zero are the shortest digits of their value. */
  lemma {:induction false} ValueMinimal(digits: seq<byte>)
    requires digits != [] ==> digits[0] != 0
    ensures Minimal(ValueOf(digits)) == digits
  {
    if digits != [] {
      var front := digits[..|digits| - 1];
      ValueMinimal(front);
      MinimalValue(ValueOf(front));
      assert digits == front + [digits[|digits| - 1]];
      var n := ValueOf(digits);
      assert n / 256 == ValueOf(front) && n % 256 == digits[|digits| - 1];
    }
  }

  function Power(width: nat): (r: nat)
    ensures r > 0
  {
    if width == 0 then 1 else 256 * Power(width - 1)
  }

  lemma PowerOfUsize()
    ensures Power(USIZE_BYTES) == USIZE_LIMIT
  {
  }

  lemma {:induction false} MinimalWidth(n: nat, width: nat)
    ensures |Minimal(n)| <= width <==> n < Power(width)
    decreases width
  {
    if width > 0 && n > 0 { MinimalWidth(n / 256, width - 1); }
  }

  function LengthOctets(n: nat): (r: seq<byte>)
    requires n < USIZE_LIMIT
    ensures |r| <= 1 + USIZE_BYTES
  {
    if n < 128 then [n]
    else
      MinimalWidth(n, USIZE_BYTES);
      PowerOfUsize();
      [128 + |Minimal(n)|] + Minimal(n)
  }

  function Encode(tag: byte, value: seq<byte>): (r: seq<byte>)
    requires Addressable(value)
    ensures |value| < |r| <= |value| + 2 + USIZE_BYTES
  {
    [tag] + LengthOctets(|value|) + value
  }

  datatype Element = Element(tag: byte, value: seq<byte>, rest: seq<byte>)

  /** The length an accepted length field declares, and what follows it. */
  function ReadLength(b: seq<byte>): Option<(nat, seq<byte>)> {
    if b == [] then None
    else if b[0] < 128 then Some((b[0] as nat, b[1..]))
    else
      var count := b[0] - 128;
      if count == 0 || count > USIZE_BYTES || |b| - 1 < count then None
      else
        var digits := b[1..1 + count];
        if digits[0] == 0 || ValueOf(digits) < 128 then None
        else Some((ValueOf(digits), b[1 + count..]))
  }

  function Parse(input: seq<byte>): (r: Option<Element>)
    ensures r.Some? ==> |r.value.rest| < |input|
  {
    if input == [] then None
    else
      var length := ReadLength(input[1..]);
      if length.None? || length.value.0 > |length.value.1| then None
      else Some(Element(input[0], length.value.1[..length.value.0], length.value.1[length.value.0..]))
  }

  lemma LengthRoundTrip(n: nat, rest: seq<byte>)
    requires n < USIZE_LIMIT
    ensures ReadLength(LengthOctets(n) + rest) == Some((n, rest))
  {
    hide Minimal, ValueOf, Power;
    var b := LengthOctets(n) + rest;
    if n < 128 {
      assert b[1..] == rest;
    } else {
      MinimalValue(n);
      MinimalWidth(n, USIZE_BYTES);
      PowerOfUsize();
      var count := |Minimal(n)|;
      assert b[1..1 + count] == Minimal(n) && b[1 + count..] == rest;
    }
  }

  lemma LengthCanonical(b: seq<byte>)
    requires ReadLength(b).Some?
    ensures var (n, rest) := ReadLength(b).value; n < USIZE_LIMIT && b == LengthOctets(n) + rest
  {
    if b[0] < 128 {
      assert b == [b[0]] + b[1..];
    } else {
      var count := b[0] - 128;
      var digits := b[1..1 + count];
      ValueMinimal(digits);
      MinimalWidth(ValueOf(digits), USIZE_BYTES);
      PowerOfUsize();
      assert b == [b[0]] + digits + b[1 + count..];
    }
  }

  /** One encoding per element: it is read back, and it is the only one read. */
  lemma RoundTrip(tag: byte, value: seq<byte>, rest: seq<byte>)
    requires Addressable(value)
    ensures Parse(Encode(tag, value) + rest) == Some(Element(tag, value, rest))
  {
    hide ReadLength, LengthOctets;
    var input := Encode(tag, value) + rest;
    assert input[1..] == LengthOctets(|value|) + (value + rest);
    LengthRoundTrip(|value|, value + rest);
  }

  lemma Canonical(input: seq<byte>)
    requires Parse(input).Some?
    ensures var e := Parse(input).value; Addressable(e.value) && input == Encode(e.tag, e.value) + e.rest
  {
    hide ReadLength, LengthOctets;
    LengthCanonical(input[1..]);
    var (n, rest) := ReadLength(input[1..]).value;
    assert input == [input[0]] + (LengthOctets(n) + (rest[..n] + rest[n..]));
  }

  /** The eight bytes of `to_be_bytes`. */
  function BigEndian(n: nat, width: nat): (r: seq<byte>)
    ensures |r| == width
    decreases width
  {
    if width == 0 then [] else BigEndian(n / 256, width - 1) + [n % 256]
  }

  /** Leading zeros removed, the fixed-width bytes are the shortest ones. */
  lemma {:induction false} BigEndianMinimal(n: nat, width: nat)
    requires n < Power(width)
    ensures |Minimal(n)| <= width && BigEndian(n, width)[width - |Minimal(n)|..] == Minimal(n)
    ensures forall i | 0 <= i < width - |Minimal(n)| :: BigEndian(n, width)[i] == 0
    decreases width
  {
    MinimalWidth(n, width);
    if width > 0 {
      BigEndianMinimal(n / 256, width - 1);
    }
  }

  /** The length's eight big-endian bytes from the first that is not zero. */
  method ShortestBytes(n: nat) returns (shortest: seq<byte>)
    requires 0 < n < USIZE_LIMIT
    ensures shortest == Minimal(n)
  {
    hide Minimal, BigEndian, Power;
    var bytes := BigEndian(n, USIZE_BYTES);
    PowerOfUsize();
    BigEndianMinimal(n, USIZE_BYTES);
    MinimalValue(n);
    ghost var leading := USIZE_BYTES - |Minimal(n)|;
    assert bytes[leading] == bytes[leading..][0];
    var first := 0;
    while bytes[first] == 0
      invariant first <= leading
      decreases |bytes| - first
    {
      first := first + 1;
    }
    return bytes[first..];
  }

  method EncodeElement(tag: byte, value: seq<byte>) returns (encoded: seq<byte>)
    requires Addressable(value)
    ensures encoded == Encode(tag, value)
  {
    encoded := [tag];
    if |value| < 128 {
      encoded := encoded + [|value|];
    } else {
      var bytes := ShortestBytes(|value|);
      PowerOfUsize();
      MinimalWidth(|value|, USIZE_BYTES);
      encoded := encoded + [128 + |bytes|];
      encoded := encoded + bytes;
      assert encoded == [tag] + LengthOctets(|value|);
    }
    encoded := encoded + value;
  }

  /** The length accumulated under checked 64-bit arithmetic, which eight digits never overflow. */
  method CheckedValue(digits: seq<byte>) returns (r: Option<nat>)
    requires |digits| <= USIZE_BYTES
    ensures r == Some(ValueOf(digits))
  {
    var length: nat := 0;
    for i := 0 to |digits|
      invariant length == ValueOf(digits[..i]) && length < Power(i)
    {
      assert digits[..i + 1][..i] == digits[..i];
      PowerGrows(i + 1, USIZE_BYTES);
      PowerOfUsize();
      if length * 256 >= USIZE_LIMIT || length * 256 + digits[i] >= USIZE_LIMIT { return None; }
      length := length * 256 + digits[i];
    }
    assert digits[..|digits|] == digits;
    return Some(length);
  }

  method ParseElement(input: seq<byte>) returns (r: Option<Element>)
    ensures r == Parse(input)
  {
    hide ValueOf;
    if |input| < 2 { return None; }
    var tag, first := input[0], input[1];
    var length: nat, after := first, input[2..];
    assert input[1..][1..] == after;
    if first >= 128 {
      var count := first - 128;
      if count == 0 || count > USIZE_BYTES || |after| < count { return None; }
      var digits := after[..count];
      assert input[1..][1..1 + count] == digits && input[1..][1 + count..] == after[count..];
      after := after[count..];
      if digits[0] == 0 { return None; }
      var value := CheckedValue(digits);
      if value.None? || value.value < 128 { return None; }
      length := value.value;
    }
    if length > |after| { return None; }
    return Some(Element(tag, after[..length], after[length..]));
  }

  lemma {:induction false} PowerGrows(a: nat, b: nat)
    requires a <= b
    ensures Power(a) <= Power(b)
  {
    if a < b { PowerGrows(a, b - 1); }
  }
}
