/** Raw path components, relative paths and the derived component-lexicographic order. */
module Paths {
  datatype Option<+T> = None | Some(value: T)

  type byte = b: int | 0 <= b < 256
  type Name = seq<byte>
  type Path = seq<Name>

  const SLASH: byte := 0x2f
  const DOT: byte := 0x2e

  /** ".quicsync" */
  const QUICSYNC: Name := [0x2e, 0x71, 0x75, 0x69, 0x63, 0x73, 0x79, 0x6e, 0x63]
  /** ".git" */
  const GIT: Name := [0x2e, 0x67, 0x69, 0x74]

  /** The ASCII bytes of a text. */
  predicate Spells(bytes: seq<byte>, text: string) {
    |bytes| == |text| && forall i :: 0 <= i < |text| ==> bytes[i] == text[i] as int
  }

  /** The two names no path may go through. */
  predicate Reserved(name: Name) {
    Spells(name, ".git") || Spells(name, ".quicsync")
  }

  /** One component that `RelativePath::new` accepts. */
  predicate ValidName(name: Name) {
    && name != [] && name != [DOT] && name != [DOT, DOT]
    && SLASH !in name && 0 !in name
  }

  predicate ValidPath(path: Path) {
    path != [] && forall i :: 0 <= i < |path| ==> ValidName(path[i])
  }

  /** A path QuicSync never indexes, transfers or mutates. */
  predicate Protected(path: Path) {
    exists i :: 0 <= i < |path| && (path[i] == QUICSYNC || path[i] == GIT)
  }

  lemma ReservedIff(name: Name)
    ensures Reserved(name) <==> name == QUICSYNC || name == GIT
  {
    assert Spells(GIT, ".git") && Spells(QUICSYNC, ".quicsync");
    if Spells(name, ".git") { assert name == GIT; }
    if Spells(name, ".quicsync") { assert name == QUICSYNC; }
  }

  /** A path is protected by any one of its components, at any depth. */
  lemma ProtectedIff(path: Path)
    ensures Protected(path) <==> exists i :: 0 <= i < |path| && Reserved(path[i])
  {
    hide Reserved;
    forall i | 0 <= i < |path| ensures Reserved(path[i]) <==> path[i] == QUICSYNC || path[i] == GIT {
      ReservedIff(path[i]);
    }
  }

  function Parent(path: Path): Path
    requires path != []
  {
    path[..|path| - 1]
  }

  /** `a` is a directory path strictly above `x`; the root itself is not a path. */
  predicate Ancestor(a: Path, x: Path) {
    a != [] && |a| < |x| && x[..|a|] == a
  }

  predicate AtOrAbove(a: Path, x: Path) {
    a == x || Ancestor(a, x)
  }

  function ByteCount(path: Path): nat {
    if path == [] then 0 else |path[0]| + ByteCount(path[1..])
  }

  predicate NameLess(a: Name, b: Name) {
    b != [] && (a == [] || a[0] < b[0] || (a[0] == b[0] && NameLess(a[1..], b[1..])))
  }

  predicate Less(p: Path, q: Path) {
    q != [] && (p == [] || NameLess(p[0], q[0]) || (p[0] == q[0] && Less(p[1..], q[1..])))
  }

  predicate AtMost(p: Path, q: Path) {
    p == q || Less(p, q)
  }

  /** `a` comes before `b`, byte by byte: a proper prefix, or smaller where they first differ. */
  ghost predicate BytesBelow(a: Name, b: Name) {
    exists k :: 0 <= k <= |a| && k < |b| && a[..k] == b[..k] && (k == |a| || a[k] < b[k])
  }

  ghost predicate ComponentsBelow(p: Path, q: Path) {
    exists k :: 0 <= k <= |p| && k < |q| && p[..k] == q[..k] && (k == |p| || BytesBelow(p[k], q[k]))
  }

  lemma {:induction false} NameLessIff(a: Name, b: Name)
    ensures NameLess(a, b) <==> BytesBelow(a, b)
  {
    if b == [] {
    } else if a == [] {
      assert a[..0] == b[..0];
    } else {
      assert a[..0] == b[..0];
      NameLessIff(a[1..], b[1..]);
      if NameLess(a, b) && a[0] == b[0] {
        var k :| 0 <= k <= |a[1..]| && k < |b[1..]| && a[1..][..k] == b[1..][..k] && (k == |a[1..]| || a[1..][k] < b[1..][k]);
        assert a[..k + 1] == [a[0]] + a[1..][..k] && b[..k + 1] == [b[0]] + b[1..][..k];
      }
      if BytesBelow(a, b) {
        var k :| 0 <= k <= |a| && k < |b| && a[..k] == b[..k] && (k == |a| || a[k] < b[k]);
        if k > 0 { assert a[0] == a[..k][0] && a[1..][..k - 1] == a[..k][1..] && b[1..][..k - 1] == b[..k][1..]; }
      }
    }
  }

  /** The order of paths is the order of their components at the first difference. */
  lemma {:induction false} LessIff(p: Path, q: Path)
    ensures Less(p, q) <==> ComponentsBelow(p, q)
  {
    hide NameLess, BytesBelow;
    if q == [] {
    } else if p == [] {
      assert p[..0] == q[..0];
    } else {
      NameLessIff(p[0], q[0]);
      assert p[..0] == q[..0];
      LessIff(p[1..], q[1..]);
      if Less(p, q) && !NameLess(p[0], q[0]) {
        var k :| 0 <= k <= |p[1..]| && k < |q[1..]| && p[1..][..k] == q[1..][..k]
                 && (k == |p[1..]| || BytesBelow(p[1..][k], q[1..][k]));
        assert p[..k + 1] == [p[0]] + p[1..][..k] && q[..k + 1] == [q[0]] + q[1..][..k];
      }
      if ComponentsBelow(p, q) {
        var k :| 0 <= k <= |p| && k < |q| && p[..k] == q[..k] && (k == |p| || BytesBelow(p[k], q[k]));
        if k > 0 { assert p[0] == p[..k][0] && p[1..][..k - 1] == p[..k][1..] && q[1..][..k - 1] == q[..k][1..]; }
      }
    }
  }

  lemma {:induction false} NameTotal(a: Name, b: Name)
    ensures !NameLess(a, a)
    ensures a == b || NameLess(a, b) || NameLess(b, a)
    ensures !(NameLess(a, b) && NameLess(b, a))
    decreases |a|
  {
    if a != [] {
      NameTotal(a[1..], a[1..]);
      if b != [] {
        NameTotal(a[1..], b[1..]);
        assert a == [a[0]] + a[1..] && b == [b[0]] + b[1..];
      }
    }
  }

  lemma {:induction false} NameTransitive(a: Name, b: Name, c: Name)
    requires NameLess(a, b) && NameLess(b, c)
    ensures NameLess(a, c)
  {
    if a != [] && a[0] == b[0] && b[0] == c[0] {
      NameTransitive(a[1..], b[1..], c[1..]);
    }
  }

  /** The order is total and irreflexive: exactly one of <, ==, > holds. */
  lemma {:induction false} Total(p: Path, q: Path)
    ensures !Less(p, p)
    ensures p == q || Less(p, q) || Less(q, p)
    ensures !(Less(p, q) && Less(q, p))
    decreases |p|
  {
    if p != [] {
      NameTotal(p[0], p[0]);
      Total(p[1..], p[1..]);
      if q != [] {
        NameTotal(p[0], q[0]);
        Total(p[1..], q[1..]);
        assert p == [p[0]] + p[1..] && q == [q[0]] + q[1..];
      }
    }
  }

  lemma {:induction false} Transitive(p: Path, q: Path, r: Path)
    requires Less(p, q) && Less(q, r)
    ensures Less(p, r)
  {
    if p != [] {
      if NameLess(p[0], q[0]) && NameLess(q[0], r[0]) {
        NameTransitive(p[0], q[0], r[0]);
      } else if p[0] == q[0] && q[0] == r[0] {
        Transitive(p[1..], q[1..], r[1..]);
      }
    }
  }

  /** A directory is ordered before everything beneath it. */
  lemma {:induction false} AncestorFirst(a: Path, x: Path)
    requires Ancestor(a, x)
    ensures Less(a, x)
  {
    if |a| > 1 {
      assert x[1..][..|a| - 1] == x[..|a|][1..];
      AncestorFirst(a[1..], x[1..]);
    }
    assert a[0] == x[..|a|][0];
  }

  /** Descendants are contiguous: nothing outside a directory sorts between it and a descendant. */
  lemma {:induction false} Contiguous(a: Path, q: Path, x: Path)
    requires Less(a, q) && AtMost(q, x) && Ancestor(a, x)
    ensures Ancestor(a, q)
  {
    if q != x {
      assert a[0] == x[..|a|][0];
      NameTotal(a[0], q[0]);
      assert a[0] == q[0];
      if |a| > 1 {
        assert x[1..][..|a| - 1] == x[..|a|][1..];
        Contiguous(a[1..], q[1..], x[1..]);
        assert q[..|a|] == [q[0]] + q[1..][..|a| - 1];
      } else {
        assert a == [a[0]];
        assert a[1..] == [];
        assert q[1..] != [];
        assert q[..1] == [q[0]];
      }
    }
  }

  lemma AncestorTransitive(a: Path, b: Path, x: Path)
    requires Ancestor(a, b) && Ancestor(b, x)
    ensures Ancestor(a, x)
  {
  }

  /** Below a directory there is a direct entry on the way to every descendant. */
  lemma ChildTowards(a: Path, x: Path)
    requires Ancestor(a, x)
    ensures var child := x[..|a| + 1]; Ancestor(a, child) && AtOrAbove(child, x)
  {
  }
}
