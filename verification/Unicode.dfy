/** What the text fields accept: exactly the UTF-8 encodings of sequences of Unicode scalar values. */
module Unicode {
  import opened Paths
  import opened Messages

  /** A code point that is not a surrogate. */
  predicate Scalar(c: nat) {
    c < 0xd800 || 0xe000 <= c < 0x11_0000
  }

  /** The one to four bytes of a code point, six bits to a tail byte. */
  function Utf8Of(c: nat): seq<byte>
    requires Scalar(c)
  {
    if c < 0x80 then [c]
    else if c < 0x800 then [0xc0 + c / 0x40, 0x80 + c % 0x40]
    else if c < 0x1_0000 then [0xe0 + c / 0x1000, 0x80 + c / 0x40 % 0x40, 0x80 + c % 0x40]
    else [0xf0 + c / 0x4_0000, 0x80 + c / 0x1000 % 0x40, 0x80 + c / 0x40 % 0x40, 0x80 + c % 0x40]
  }

  predicate Scalars(cs: seq<nat>) {
    forall i :: 0 <= i < |cs| ==> Scalar(cs[i])
  }

  function Encoded(cs: seq<nat>): seq<byte>
    requires Scalars(cs)
  {
    if cs == [] then [] else Utf8Of(cs[0]) + Encoded(cs[1..])
  }

  lemma FirstAccepted(c: nat, rest: seq<byte>)
    requires Scalar(c) && Utf8(rest)
    ensures Utf8(Utf8Of(c) + rest)
  {
    var s := Utf8Of(c) + rest;
    assert s[|Utf8Of(c)|..] == rest;
  }

  lemma {:induction false} EncodedAccepted(cs: seq<nat>)
    requires Scalars(cs)
    ensures Utf8(Encoded(cs))
  {
    if cs != [] {
      EncodedAccepted(cs[1..]);
      FirstAccepted(cs[0], Encoded(cs[1..]));
    }
  }

  /** The code point of a lead byte's bits and six bits a tail byte. */
  lemma TwoBytes(a: nat, b: nat) returns (c: nat)
    requires 2 <= a < 0x20 && b < 0x40
    ensures Scalar(c) && Utf8Of(c) == [0xc0 + a, 0x80 + b]
  {
    c := a * 0x40 + b;
  }

  lemma ThreeBytes(a: nat, b: nat, d: nat) returns (c: nat)
    requires a < 0x10 && b < 0x40 && d < 0x40 && (a == 0 ==> b >= 0x20) && (a == 0xd ==> b < 0x20)
    ensures Scalar(c) && Utf8Of(c) == [0xe0 + a, 0x80 + b, 0x80 + d]
  {
    c := a * 0x1000 + b * 0x40 + d;
    assert c / 0x40 == a * 0x40 + b;
  }

  lemma FourBytes(a: nat, b: nat, d: nat, e: nat) returns (c: nat)
    requires a < 5 && b < 0x40 && d < 0x40 && e < 0x40 && (a == 0 ==> b >= 0x10) && (a == 4 ==> b < 0x10)
    ensures Scalar(c) && Utf8Of(c) == [0xf0 + a, 0x80 + b, 0x80 + d, 0x80 + e]
  {
    c := a * 0x4_0000 + b * 0x1000 + d * 0x40 + e;
    assert c / 0x1000 == a * 0x40 + b;
    assert c / 0x40 == a * 0x1000 + b * 0x40 + d;
  }

  /** The first code point of accepted text. */
  lemma FirstOf(s: seq<byte>) returns (c: nat, rest: seq<byte>)
    requires Utf8(s) && s != []
    ensures Scalar(c) && s == Utf8Of(c) + rest && Utf8(rest) && |rest| < |s|
  {
    if s[0] < 0x80 {
      c, rest := s[0], s[1..];
      return;
    }
    hide Utf8Of, Scalar;
    if s[0] <= 0xdf {
      c := TwoBytes(s[0] - 0xc0, s[1] - 0x80);
      rest := s[2..];
    } else if s[0] <= 0xef {
      c := ThreeBytes(s[0] - 0xe0, s[1] - 0x80, s[2] - 0x80);
      rest := s[3..];
    } else {
      c := FourBytes(s[0] - 0xf0, s[1] - 0x80, s[2] - 0x80, s[3] - 0x80);
      rest := s[4..];
    }
  }

  lemma {:induction false} AcceptedEncodes(s: seq<byte>) returns (cs: seq<nat>)
    requires Utf8(s)
    ensures Scalars(cs) && Encoded(cs) == s
    decreases |s|
  {
    if s == [] {
      cs := [];
    } else {
      var c, rest := FirstOf(s);
      var later := AcceptedEncodes(rest);
      cs := [c] + later;
      assert cs[1..] == later;
    }
  }

  lemma Utf8Iff(s: seq<byte>)
    ensures Utf8(s) <==> exists cs :: Scalars(cs) && Encoded(cs) == s
  {
    if Utf8(s) { var cs := AcceptedEncodes(s); }
    if cs :| Scalars(cs) && Encoded(cs) == s { EncodedAccepted(cs); }
  }
}
