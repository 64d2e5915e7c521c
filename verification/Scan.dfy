/** The ordered recursive walk that turns a tree into an index. */
module Scan {
  import opened Paths
  import opened PathText
  import opened Records
  import opened Tree
  import opened Ignore
  import opened PlanDiff

  /** ".gitignore" */
  const GITIGNORE: Name := [0x2e, 0x67, 0x69, 0x74, 0x69, 0x67, 0x6e, 0x6f, 0x72, 0x65]

  datatype Walk = Walk(
    hash: seq<byte> -> Digest, matcher: Matcher, configured: seq<RuleSet>,
    maxComponents: nat, maxPathBytes: nat, nodes: Nodes)

  /** The rules a directory itself adds: its own regular `.gitignore` file. */
  function OwnRules(w: Walk, dir: Path): seq<RuleSet> {
    var file := dir + [GITIGNORE];
    if file in w.nodes && w.nodes[file].File? then [RuleSet(dir, w.nodes[file].content)] else []
  }

  /** The rules that apply inside a directory: configured ones, then its ancestors', then its own. */
  function PolicyIn(w: Walk, dir: Path): seq<RuleSet>
    decreases |dir|
  {
    (if dir == [] then w.configured else PolicyIn(w, Parent(dir))) + OwnRules(w, dir)
  }

  function PolicyAbove(w: Walk, dir: Path): seq<RuleSet> {
    if dir == [] then w.configured else PolicyIn(w, Parent(dir))
  }

  /** An entry is managed when no rule of an ancestor directory excludes it or a directory above it. */
  predicate Managed(w: Walk, x: Path)
    decreases |x|
  {
    && x != [] && x in w.nodes
    && (|x| == 1 || (Managed(w, Parent(x)) && w.nodes[Parent(x)].Dir?))
    && Decide(w.matcher, PolicyIn(w, Parent(x)), x, KindOf(w.nodes[x])) == ManagedEntry
  }

  /** These are the rules of a regular file named ".gitignore" in this directory. */
  ghost predicate RuleFile(w: Walk, dir: Path, rules: RuleSet) {
    exists name: Name ::
      Spells(name, ".gitignore") && dir + [name] in w.nodes && w.nodes[dir + [name]].File?
      && rules == RuleSet(dir, w.nodes[dir + [name]].content)
  }

  lemma OwnRulesAre(w: Walk, dir: Path)
    ensures |OwnRules(w, dir)| <= 1 && forall rules :: rules in OwnRules(w, dir) <==> RuleFile(w, dir, rules)
  {
    assert Spells(GITIGNORE, ".gitignore");
    forall name: Name | Spells(name, ".gitignore") ensures name == GITIGNORE {
    }
  }

  /** The rules of the root, then of each directory on the way down to `dir`, its own last. */
  function Layers(w: Walk, dir: Path, k: nat): seq<RuleSet>
    requires k <= |dir| + 1
  {
    if k == 0 then [] else Layers(w, dir, k - 1) + OwnRules(w, dir[..k - 1])
  }

  lemma {:induction false} LayersAbove(w: Walk, dir: Path, k: nat)
    requires dir != [] && k <= |dir|
    ensures Layers(w, dir, k) == Layers(w, Parent(dir), k)
  {
    if k > 0 {
      LayersAbove(w, dir, k - 1);
      assert dir[..k - 1] == Parent(dir)[..k - 1];
    }
  }

  /** Exclusions come first and deeper rule files later, so that a deeper one overrides. */
  lemma {:induction false} PolicyIsLayers(w: Walk, dir: Path)
    ensures PolicyIn(w, dir) == w.configured + Layers(w, dir, |dir| + 1)
    decreases |dir|
  {
    assert dir[..|dir|] == dir;
    if dir != [] {
      PolicyIsLayers(w, Parent(dir));
      LayersAbove(w, dir, |dir|);
      assert (w.configured + Layers(w, dir, |dir|)) + OwnRules(w, dir) == w.configured + (Layers(w, dir, |dir|) + OwnRules(w, dir));
    } else {
      assert Layers(w, dir, 0) == [] && [] + OwnRules(w, dir) == OwnRules(w, dir);
    }
  }

  /** The entry at `x[..k]` is not ignored by the rules in force in its directory. */
  ghost predicate KeptAt(w: Walk, x: Path, k: nat)
    requires 0 < k <= |x| && x in w.nodes
  {
    !SomeLastIgnores(w.matcher, PolicyIn(w, x[..k - 1]), x[..k], k < |x| || w.nodes[x].Dir?)
  }

  /** Directories lead to the entry, no component is reserved, neither it nor any of them is ignored. */
  ghost predicate ManagedByRules(w: Walk, x: Path) {
    && x != [] && x in w.nodes
    && (forall k :: 0 < k < |x| ==> x[..k] in w.nodes && w.nodes[x[..k]].Dir?)
    && (forall i :: 0 <= i < |x| ==> !Reserved(x[i]))
    && forall k :: 0 < k <= |x| ==> KeptAt(w, x, k)
  }

  lemma {:induction false} ManagedIff(w: Walk, x: Path)
    ensures Managed(w, x) <==> ManagedByRules(w, x)
    decreases |x|
  {
    hide Reserved, SomeLastIgnores, IgnoredBy, PolicyIn, Protected, ManagedByRules;
    if x != [] && x in w.nodes {
      var up := Parent(x);
      assert x[..|x|] == x && x[..|x| - 1] == up;
      ProtectedIff(x);
      IgnoredByIff(w.matcher, PolicyIn(w, up), x, w.nodes[x].Dir?);
      EntryOnTop(w, x);
      if |x| > 1 { ManagedIff(w, up); }
    } else {
      Nowhere(w, x);
    }
  }

  lemma Nowhere(w: Walk, x: Path)
    requires x == [] || x !in w.nodes
    ensures !ManagedByRules(w, x)
  {
  }

  /** What an entry adds to its parent directory. */
  lemma EntryOnTop(w: Walk, x: Path)
    requires x != [] && x in w.nodes
    ensures ManagedByRules(w, x) <==>
            && (|x| > 1 ==> ManagedByRules(w, Parent(x)) && w.nodes[Parent(x)].Dir?)
            && (forall i :: 0 <= i < |x| ==> !Reserved(x[i])) && KeptAt(w, x, |x|)
  {
    hide Reserved, KeptAt;
    var up := Parent(x);
    assert forall k :: 0 < k < |x| ==> up[..k] == x[..k];
    assert forall i :: 0 <= i < |x| - 1 ==> up[i] == x[i];
    if |x| > 1 && up in w.nodes && w.nodes[up].Dir? { KeptAbove(w, x); }
    if ManagedByRules(w, x) && |x| > 1 { assert x[..|x| - 1] == up; }
  }

  /** On the way to an entry, the same directories decide as on the way to its parent. */
  lemma KeptAbove(w: Walk, x: Path)
    requires |x| > 1 && x in w.nodes && Parent(x) in w.nodes && w.nodes[Parent(x)].Dir?
    ensures forall k :: 0 < k < |x| ==> (KeptAt(w, x, k) <==> KeptAt(w, Parent(x), k))
  {
    hide SomeLastIgnores, PolicyIn;
    forall k | 0 < k < |x| ensures KeptAt(w, x, k) <==> KeptAt(w, Parent(x), k) {
      assert x[..k] == Parent(x)[..k] && x[..k - 1] == Parent(x)[..k - 1];
    }
  }

  /** A directory the walk enters. */
  predicate Entered(w: Walk, dir: Path) {
    dir == [] || (Managed(w, dir) && w.nodes[dir].Dir?)
  }

  /** `append_component` accepts the path. */
  predicate InBounds(w: Walk, path: Path) {
    && path != [] && |path| <= w.maxComponents
    && ByteCount(path) + |path| - 1 <= w.maxPathBytes
    && ValidPath(path)
  }

  /** The bounds are on what the kernel would be given: so many names, so many bytes with the slashes. */
  lemma InBoundsIff(w: Walk, path: Path)
    ensures InBounds(w, path) <==>
            path != [] && |path| <= w.maxComponents && |Text(path)| <= w.maxPathBytes && ValidPath(path)
  {
    if path != [] { TextLength(path); }
  }

  predicate DirectoryScannable(w: Walk, dir: Path) {
    && (forall rules :: rules in OwnRules(w, dir) ==> w.matcher.parses(rules.contents))
    && (forall x :: x in w.nodes && |x| == |dir| + 1 && Within(dir, x) ==> InBounds(w, x))
  }

  /** Nothing on the walk from `scope` down is malformed or out of bounds. */
  ghost predicate Scannable(w: Walk, scope: Path) {
    forall dir :: Entered(w, dir) && (dir == scope || Within(scope, dir)) ==> DirectoryScannable(w, dir)
  }

  function PathsOf(records: seq<Record>): set<Path> {
    set r | r in records :: r.path
  }

  /** Records of exactly the managed entries that satisfy `here`, in bounds and in strict path order. */
  ghost predicate Index(w: Walk, records: seq<Record>, here: iset<Path>) {
    && Sorted(records)
    && (forall r :: r in records ==> r.path in here && Managed(w, r.path) && InBounds(w, r.path)
                                     && r == RecordOf(w.hash, r.path, w.nodes[r.path]))
    && (forall x :: x in here && Managed(w, x) ==> x in PathsOf(records))
  }

  /** The beginning of such an index: everything managed that comes before a record is there too. */
  ghost predicate IndexPrefix(w: Walk, records: seq<Record>, here: iset<Path>) {
    && Sorted(records)
    && (forall r :: r in records ==> r.path in here && Managed(w, r.path) && InBounds(w, r.path)
                                     && r == RecordOf(w.hash, r.path, w.nodes[r.path]))
    && (forall x, r :: x in here && Managed(w, x) && r in records && Less(x, r.path) ==> x in PathsOf(records))
  }

  ghost function Under(scope: Path): iset<Path> {
    iset x | Within(scope, x)
  }

  /** What has been walked after the children in `names`. */
  ghost function UnderNames(scope: Path, names: set<Name>): iset<Path> {
    iset x | Within(scope, x) && x[|scope|] in names
  }

  class Sink {
    var sent: seq<Record>

    constructor ()
      ensures sent == []
    {
      sent := [];
    }

    method Emit(record: Record)
      modifies this
      ensures sent == old(sent) + [record]
    {
      sent := sent + [record];
    }
  }

  function ChildNames(nodes: Nodes, scope: Path): set<Name> {
    set x | x in nodes && |x| == |scope| + 1 && Within(scope, x) :: x[|scope|]
  }

  ghost predicate NamesSorted(names: seq<Name>) {
    forall i, j :: 0 <= i < j < |names| ==> NameLess(names[i], names[j])
  }

  lemma {:induction false} LeastNameExists(names: set<Name>)
    requires names != {}
    ensures exists least :: least in names && forall n :: n in names ==> n == least || NameLess(least, n)
    decreases |names|
  {
    hide NameLess;
    var some :| some in names;
    var others := names - {some};
    if others == {} {
      assert names == {some};
    } else {
      LeastNameExists(others);
      var other :| other in others && forall n :: n in others ==> n == other || NameLess(other, n);
      NameTotal(some, other);
      var least := if NameLess(some, other) then some else other;
      forall n | n in names ensures n == least || NameLess(least, n) {
        if n != some && least == some && n != other { NameTransitive(some, other, n); }
      }
      assert least in names;
    }
  }

  /** The names of exactly this directory's entries, in the order of their raw bytes. */
  ghost predicate Listing(nodes: Nodes, scope: Path, names: seq<Name>) {
    && (forall i, j :: 0 <= i < j < |names| ==> BytesBelow(names[i], names[j]))
    && forall n :: n in names <==> scope + [n] in nodes
  }

  /** A directory's entries, sorted by their raw bytes. */
  method SortedChildren(nodes: Nodes, scope: Path) returns (names: seq<Name>)
    ensures NamesSorted(names)
    ensures forall n :: n in names <==> n in ChildNames(nodes, scope)
    ensures Listing(nodes, scope, names)
  {
    names := [];
    var rest := ChildNames(nodes, scope);
    while rest != {}
      invariant NamesSorted(names)
      invariant forall n :: n in names || n in rest <==> n in ChildNames(nodes, scope)
      invariant forall a, b :: a in names && b in rest ==> NameLess(a, b)
      decreases |rest|
    {
      LeastNameExists(rest);
      var least :| least in rest && forall n :: n in rest ==> n == least || NameLess(least, n);
      names := names + [least];
      rest := rest - {least};
    }
    forall i, j | 0 <= i < j < |names| ensures BytesBelow(names[i], names[j]) { NameLessIff(names[i], names[j]); }
    forall n ensures n in ChildNames(nodes, scope) <==> scope + [n] in nodes { ChildIff(nodes, scope, n); }
  }

  lemma ChildIff(nodes: Nodes, scope: Path, n: Name)
    ensures n in ChildNames(nodes, scope) <==> scope + [n] in nodes
  {
    if n in ChildNames(nodes, scope) {
      var x :| x in nodes && |x| == |scope| + 1 && Within(scope, x) && x[|scope|] == n;
      assert x == scope + [n];
    }
    if scope + [n] in nodes { assert Within(scope, scope + [n]) && (scope + [n])[|scope|] == n; }
  }

  /** The same kind of entry, or none in either tree. */
  predicate SameKindAt(w: Walk, w': Walk, x: Path) {
    (x in w.nodes <==> x in w'.nodes) && (x in w.nodes ==> KindOf(w.nodes[x]) == KindOf(w'.nodes[x]))
  }

  /** Two walks whose rules agree along the way to `x`, whatever else their trees hold. */
  ghost predicate SameAlong(w: Walk, w': Walk, x: Path) {
    && w.matcher == w'.matcher && w.configured == w'.configured
    && (forall k :: 0 <= k < |x| ==> OwnRules(w, x[..k]) == OwnRules(w', x[..k]))
    && (forall k :: 0 < k <= |x| ==> SameKindAt(w, w', x[..k]))
  }

  lemma SameAlongParent(w: Walk, w': Walk, x: Path)
    requires x != [] && SameAlong(w, w', x)
    ensures SameAlong(w, w', Parent(x)) && OwnRules(w, Parent(x)) == OwnRules(w', Parent(x))
  {
    forall k | 0 <= k < |Parent(x)| ensures OwnRules(w, Parent(x)[..k]) == OwnRules(w', Parent(x)[..k]) {
      assert Parent(x)[..k] == x[..k];
    }
    forall k | 0 < k <= |Parent(x)| ensures SameKindAt(w, w', Parent(x)[..k]) {
      assert Parent(x)[..k] == x[..k];
    }
  }

  lemma {:induction false} PolicyLocal(w: Walk, w': Walk, dir: Path)
    requires SameAlong(w, w', dir) && OwnRules(w, dir) == OwnRules(w', dir)
    ensures PolicyIn(w, dir) == PolicyIn(w', dir)
    decreases |dir|
  {
    if dir != [] {
      SameAlongParent(w, w', dir);
      PolicyLocal(w, w', Parent(dir));
    }
  }

  /** Whether a path is managed depends on nothing but itself, its ancestors and their own rules. */
  lemma {:induction false} ManagedLocal(w: Walk, w': Walk, x: Path)
    requires SameAlong(w, w', x)
    ensures Managed(w, x) <==> Managed(w', x)
    decreases |x|
  {
    if x != [] {
      assert x[..|x|] == x;
      assert SameKindAt(w, w', x);
      SameAlongParent(w, w', x);
      PolicyLocal(w, w', Parent(x));
      ManagedLocal(w, w', Parent(x));
      if |x| > 1 { assert SameKindAt(w, w', x[..|x| - 1]); }
    }
  }
}
