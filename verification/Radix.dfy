/** Which bytes integers are on the wire, digit by digit. */
module Radix {
  import opened Paths
  import opened Wire

  function Pow128(k: nat): (r: nat)
    ensures r > 0
  {
    if k == 0 then 1 else 128 * Pow128(k - 1)
  }

  /** How many groups of seven bits a number has, at least one. */
  function Groups(n: nat): (r: nat)
    ensures r > 0
  {
    if n < 128 then 1 else 1 + Groups(n / 128)
  }

  lemma Distribute(a: nat, b: nat, r: nat, t: nat)
    ensures a * (b * r + t) == (a * b) * r + a * t
  {
  }

  lemma Monotone(d: nat, x: nat, y: nat)
    requires x <= y
    ensures d * x <= d * y
  {
  }

  lemma Quotient(n: nat, d: nat, r: nat, rest: nat)
    requires d > 0 && n == d * r + rest && rest < d
    ensures n / d == r
  {
    var q := n / d;
    if q < r {
      Monotone(d, q + 1, r);
      assert false;
    } else if q > r {
      Monotone(d, r + 1, q);
      assert false;
    }
  }

  lemma RestBelow(a: nat, b: nat, t: nat, s: nat)
    requires t < b && s < a
    ensures a * t + s < a * b
  {
    Monotone(a, t + 1, b);
  }

  lemma Euclid(n: nat, d: nat)
    requires d > 0
    ensures n == d * (n / d) + n % d && n % d < d
  {
  }

  /** Dividing twice is dividing by the product. */
  lemma DivideTwice(n: nat, a: nat, b: nat)
    requires a > 0 && b > 0
    ensures a * b > 0 && n / (a * b) == n / a / b
  {
    var q := n / a;
    Euclid(n, a);
    Euclid(q, b);
    Product(n, a, b, q, n % a, q / b, q % b);
  }

  lemma Product(n: nat, a: nat, b: nat, q: nat, s: nat, r: nat, t: nat)
    requires n == a * q + s && s < a && q == b * r + t && t < b
    ensures a * b > 0 && n / (a * b) == r
  {
    Distribute(a, b, r, t);
    RestBelow(a, b, t, s);
    Quotient(n, a * b, r, a * t + s);
  }

  /** Little-endian: the low byte first. */
  function Le(n: nat, width: nat): seq<byte> {
    seq(width, k requires 0 <= k < width => Digit256(n, k))
  }

  function Digit256(n: nat, k: nat): byte {
    n / Pow256(k) % 256
  }

  function Digit128(n: nat, k: nat): (r: nat)
    ensures r < 128
  {
    n / Pow128(k) % 128
  }

  lemma HigherDigits(n: nat, k: nat)
    ensures Digit256(n, k + 1) == Digit256(n / 256, k) && Digit256(n, 0) == n % 256
    ensures Digit128(n, k + 1) == Digit128(n / 128, k) && Digit128(n, 0) == n % 128
  {
    DivideTwice(n, 256, Pow256(k));
    DivideTwice(n, 128, Pow128(k));
  }

  /** Byte `k` of a fixed field is digit `k` in base 256. */
  lemma {:induction false} FixedIs(n: nat, width: nat, rest: seq<byte>)
    ensures PutFixed(n, width, rest) == Le(n, width) + rest
    ensures forall k :: 0 <= k < width ==> PutFixed(n, width, rest)[k] == n / Pow256(k) % 256
  {
    if width == 0 {
      assert Le(n, 0) + rest == rest;
    } else {
      FixedIs(n / 256, width - 1, rest);
      forall k | 0 <= k < width ensures Le(n, width)[k] == ([n % 256] + Le(n / 256, width - 1))[k] {
        HigherDigits(n, if k > 0 then k - 1 else 0);
      }
      assert Le(n, width) == [n % 256] + Le(n / 256, width - 1);
    }
  }

  /** LEB128: groups of seven bits, the low one first, the high bit on all but the last. */
  function Leb(n: nat): seq<byte> {
    seq(Groups(n), k requires 0 <= k < Groups(n) => Digit128(n, k) + if k + 1 < Groups(n) then 128 else 0)
  }

  /** The groups are as many as the number needs. */
  lemma {:induction false} GroupsNeeded(n: nat)
    ensures n < Pow128(Groups(n)) && (n > 0 ==> Pow128(Groups(n) - 1) <= n)
  {
    if n >= 128 {
      GroupsNeeded(n / 128);
      assert Groups(n) == 1 + Groups(n / 128);
    } else {
      assert Pow128(1) == 128 && Pow128(0) == 1;
    }
  }

  lemma LebStep(n: nat)
    requires n >= 128
    ensures Leb(n) == [n % 128 + 128] + Leb(n / 128)
  {
    hide Digit128;
    var g := Groups(n / 128);
    forall k | 0 <= k <= g ensures Leb(n)[k] == ([n % 128 + 128] + Leb(n / 128))[k] {
      HigherDigits(n, if k > 0 then k - 1 else 0);
    }
  }

  lemma {:induction false} VarintIs(n: nat, rest: seq<byte>)
    ensures PutVarint(n, rest) == Leb(n) + rest
  {
    hide Leb;
    if n < 128 {
      LebOne(n);
    } else {
      VarintIs(n / 128, rest);
      LebStep(n);
    }
  }

  lemma LebOne(n: nat)
    requires n < 128
    ensures Leb(n) == [n]
  {
    HigherDigits(n, 0);
  }

  /** A varint takes one byte for each group. */
  lemma VarintGroups(v: nat, rest: seq<byte>)
    ensures |PutVarint(v, rest)| == Groups(v) + |rest|
  {
    VarintIs(v, rest);
  }

  /** The powers that the widths in use come to. */
  lemma PowersAre()
    ensures Pow256(1) == 0x100 && Pow256(2) == 0x1_0000 && Pow256(4) == 0x1_0000_0000
    ensures Pow256(8) == 0x1_0000_0000_0000_0000
    ensures Pow128(1) == 0x80 && Pow128(2) == 0x4000
  {
    assert Pow256(2) == 0x1_0000;
    assert Pow256(4) == 0x1_0000_0000;
  }

  /** What a fixed field of two or eight bytes is, written out. */
  lemma LeAre(n: nat)
    ensures Le(n, 2) == [n % 0x100, n / 0x100 % 0x100]
    ensures Le(n, 8) ==
            [n % 0x100, n / 0x100 % 0x100, n / 0x1_0000 % 0x100, n / 0x100_0000 % 0x100, n / 0x1_0000_0000 % 0x100,
             n / 0x100_0000_0000 % 0x100, n / 0x1_0000_0000_0000 % 0x100, n / 0x100_0000_0000_0000 % 0x100]
  {
    PowersAre();
    assert Pow256(3) == 0x100_0000 && Pow256(5) == 0x100_0000_0000;
    assert Pow256(6) == 0x1_0000_0000_0000 && Pow256(7) == 0x100_0000_0000_0000;
    assert Pow256(0) == 1;
  }
}
