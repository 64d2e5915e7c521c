/** The encoding rules of ITU-T X.690 in their own terms, and that the hand-written encoder follows them. */
module X690 {
  import opened Paths
  import opened Radix
  import opened Der

  /** Section 8.1.2.2. */
  datatype Class = Universal | Application | ContextSpecific | PrivateUse

  /** Section 8.1.2: two bits of class, one for constructed, five of number. */
  function Identifier(tagClass: Class, constructed: bool, number: nat): byte
    requires number < 31
  {
    (match tagClass case Universal => 0 case Application => 1 case ContextSpecific => 2 case PrivateUse => 3) * 64
    + (if constructed then 32 else 0) + number
  }

  /** How many octets a number takes, at least one. */
  function Octets(n: nat): (r: nat)
    ensures r > 0
  {
    if n < 256 then 1 else 1 + Octets(n / 256)
  }

  /** Most significant first. */
  function HighFirst(n: nat): seq<byte> {
    seq(Octets(n), k requires 0 <= k < Octets(n) => Digit256(n, Octets(n) - 1 - k))
  }

  /** The definite form in the fewest octets (sections 8.1.3 and 10.1). */
  function Definite(n: nat): seq<byte>
    requires Octets(n) < 127
  {
    if n < 128 then [n] else [0x80 + Octets(n)] + HighFirst(n)
  }

  function Tlv(identifier: byte, value: seq<byte>): (r: seq<byte>)
    requires Addressable(value)
    ensures |r| <= |value| + 10
  {
    LengthIs(|value|);
    [identifier] + Definite(|value|) + value
  }

  lemma {:induction false} MinimalIs(n: nat)
    requires n > 0
    ensures Minimal(n) == HighFirst(n) && |Minimal(n)| == Octets(n)
  {
    HigherDigits(n, 0);
    if n < 256 {
      assert Minimal(n) == Minimal(0) + [n];
    } else {
      MinimalIs(n / 256);
      HighFirstStep(n);
    }
  }

  lemma HighFirstStep(n: nat)
    requires n >= 256
    ensures HighFirst(n) == HighFirst(n / 256) + [n % 256]
  {
    hide Digit256;
    var c := Octets(n / 256);
    HigherDigits(n, 0);
    forall k | 0 <= k <= c ensures HighFirst(n)[k] == (HighFirst(n / 256) + [n % 256])[k] {
      if k < c { HigherDigits(n, c - 1 - k); }
    }
  }

  lemma LengthIs(n: nat)
    requires n < USIZE_LIMIT
    ensures Octets(n) <= 8 && LengthOctets(n) == Definite(n)
  {
    if n > 0 {
      MinimalIs(n);
      MinimalWidth(n, USIZE_BYTES);
      PowerOfUsize();
    }
  }

  /** The encoder writes identifier, length and contents. */
  lemma EncodeIsTlv(tag: byte, value: seq<byte>)
    requires Addressable(value)
    ensures Encode(tag, value) == Tlv(tag, value)
  {
    LengthIs(|value|);
  }

  /** The ASCII bytes of a text. */
  function Ascii(text: string): (bytes: seq<byte>)
    requires forall i :: 0 <= i < |text| ==> text[i] < 128 as char
    ensures Spells(bytes, text)
  {
    seq(|text|, i requires 0 <= i < |text| => text[i] as int)
  }
}
