/**
 * A destination that keeps an ignored file in a directory the source no longer has: both sides scan
 * by the same rule file, yet the commit fails, and a deletion made before is not undone.
 */
module Obstacle {
  import opened Paths
  import opened Records
  import opened Planner
  import opened PlanDiff
  import opened Tree
  import opened Commit
  import opened Journal
  import opened Reconciliation
  import opened Applying
  import opened Convergence
  import opened Obstruction
  import opened Ignore
  import opened Scan
  import opened Walking
  import opened Pipeline

  /** "a", "d" and "x" */
  const STALE: Name := [0x61]
  const DIRECTORY: Name := [0x64]
  const CACHE: Name := [0x78]
  const KEPT: Path := [DIRECTORY, CACHE]

  /** The rule "d/x", in both trees. */
  const RULE: seq<byte> := [0x64, 0x2f, 0x78]
  const RULE_FILE: Node := File(0x1a4, 0, RULE)
  const LEAF: Node := File(0x1a4, 0, [])

  const SOURCE: Nodes := map[[GITIGNORE] := RULE_FILE]
  const DESTINATION: Nodes :=
    map[[GITIGNORE] := RULE_FILE, [STALE] := LEAF, [DIRECTORY] := Dir(0x1ed, 0, 0), KEPT := LEAF]

  function RuleMatcher(): Matcher {
    Matcher(_ => true, (rules: RuleSet, path: Path, isDir: bool) =>
      if rules.contents == RULE && path == KEPT then Ignored else NoMatch)
  }

  function WalkOf(hash: seq<byte> -> Digest, nodes: Nodes): Walk {
    Walk(hash, RuleMatcher(), [], 256, 4096, nodes)
  }

  lemma NamesPlain()
    ensures forall n :: n in {GITIGNORE, STALE, DIRECTORY, CACHE} ==> ValidName(n) && n != QUICSYNC && n != GIT
  {
    assert |QUICSYNC| == 9 && |GIT| == 4 && |GITIGNORE| == 10;
  }

  /** The rule file applies everywhere, and ignores one path. */
  lemma RulesAre(hash: seq<byte> -> Digest, nodes: Nodes)
    requires nodes == SOURCE || nodes == DESTINATION
    ensures
      var w := WalkOf(hash, nodes);
      && OwnRules(w, []) == [RuleSet([], RULE)] && PolicyIn(w, []) == [RuleSet([], RULE)]
      && OwnRules(w, [DIRECTORY]) == [] && PolicyIn(w, [DIRECTORY]) == [RuleSet([], RULE)]
  {
    var w := WalkOf(hash, nodes);
    assert [] + [GITIGNORE] == [GITIGNORE];
    assert ([DIRECTORY] + [GITIGNORE])[1] == GITIGNORE != KEPT[1] by { assert |GITIGNORE| == 10; }
    assert |[DIRECTORY] + [GITIGNORE]| == 2;
    assert Parent([DIRECTORY]) == [];
  }

  lemma DecisionIs(path: Path, kind: Kind)
    requires path != [] && !Protected(path)
    ensures Decide(RuleMatcher(), [RuleSet([], RULE)], path, kind)
         == if path == KEPT then IgnoredEntry else ManagedEntry
  {
    var scoped := [RuleSet([], RULE)];
    assert Within([], path) && path[0..] == path && scoped[..0] == [];
    var m, isDir := RuleMatcher(), kind == DirectoryKind;
    assert m.verdict(scoped[0], path[0..], isDir) == if path == KEPT then Ignored else NoMatch;
    assert IgnoredBy(m, [], path, isDir) == false;
    assert IgnoredBy(m, scoped, path, isDir) == (path == KEPT);
  }

  lemma ManagedAre(hash: seq<byte> -> Digest, nodes: Nodes, x: Path)
    requires nodes == SOURCE || nodes == DESTINATION
    ensures Managed(WalkOf(hash, nodes), x) <==> x in nodes && x != KEPT
  {
    hide Decide, PolicyIn, OwnRules, RuleMatcher, ValidName;
    var w := WalkOf(hash, nodes);
    if x in nodes {
      NamesPlain();
      RulesAre(hash, nodes);
      assert !Protected(x);
      DecisionIs(x, KindOf(nodes[x]));
      assert Parent([GITIGNORE]) == [] && Parent([STALE]) == [] && Parent([DIRECTORY]) == [] && Parent(KEPT) == [DIRECTORY];
    }
  }

  lemma AllFit(hash: seq<byte> -> Digest, nodes: Nodes, x: Path)
    requires (nodes == SOURCE || nodes == DESTINATION) && x in nodes
    ensures InBounds(WalkOf(hash, nodes), x)
  {
    NamesPlain();
    assert ByteCount([]) == 0;
    assert x[1..] == [] || (x == KEPT && KEPT[1..] == [CACHE] && [CACHE][1..] == []);
    assert |GITIGNORE| == 10;
  }

  /** Both walks succeed. */
  lemma Scans(hash: seq<byte> -> Digest, nodes: Nodes)
    requires nodes == SOURCE || nodes == DESTINATION
    ensures RootScannable(WalkOf(hash, nodes))
  {
    var w := WalkOf(hash, nodes);
    forall dir | Entered(w, dir) ensures DirectoryScannable(w, dir) {
      forall x | x in w.nodes && |x| == |dir| + 1 && Within(dir, x) ensures InBounds(w, x) { AllFit(hash, nodes, x); }
    }
  }

  lemma TreeWellFormed(nodes: Nodes)
    requires nodes == SOURCE || nodes == DESTINATION
    ensures WellFormed(nodes)
  {
    forall a, x | x in nodes && Ancestor(a, x) ensures IsDir(nodes, a) {
      assert x == KEPT && a == [DIRECTORY];
    }
  }

  function ProblemHere(hash: seq<byte> -> Digest): Problem {
    ProblemOf(WalkOf(hash, SOURCE), WalkOf(hash, DESTINATION))
  }

  lemma Meets(hash: seq<byte> -> Digest)
    ensures Compatible(WalkOf(hash, SOURCE), WalkOf(hash, DESTINATION)) && Valid(ProblemHere(hash))
    ensures Obstructs(ProblemHere(hash), [DIRECTORY], KEPT) && !Clear(ProblemHere(hash))
  {
    hide Managed, RuleMatcher, WellFormed, Valid;
    TreeWellFormed(SOURCE);
    TreeWellFormed(DESTINATION);
    forall x ensures Managed(WalkOf(hash, SOURCE), x) <==> x in SOURCE && x != KEPT { ManagedAre(hash, SOURCE, x); }
    ManagedAre(hash, DESTINATION, KEPT);
    ManagedAre(hash, DESTINATION, [DIRECTORY]);
    ProblemValid(WalkOf(hash, SOURCE), WalkOf(hash, DESTINATION));
    assert Ancestor([DIRECTORY], KEPT);
  }

  /** The two indexes. */
  function RecordAt(hash: seq<byte> -> Digest, n: Name): Record
    requires [n] in DESTINATION
  {
    RecordOf(hash, [n], DESTINATION[[n]])
  }

  lemma ProblemIs(hash: seq<byte> -> Digest)
    ensures
      var p := ProblemHere(hash);
      p.hash == hash && p.source == SOURCE && p.init == DESTINATION
      && p.managed == {[GITIGNORE], [STALE], [DIRECTORY]}
  {
    hide Managed, RuleMatcher;
    var p := ProblemHere(hash);
    forall x ensures (x in p.source <==> x in SOURCE) && (x in p.managed <==> x in DESTINATION && x != KEPT) {
      ManagedAre(hash, SOURCE, x);
      ManagedAre(hash, DESTINATION, x);
    }
  }

  lemma NamesOrdered()
    ensures Less([GITIGNORE], [STALE]) && Less([STALE], [DIRECTORY]) && Less([GITIGNORE], [DIRECTORY])
  {
    assert NameLess(GITIGNORE, STALE) && NameLess(STALE, DIRECTORY) && NameLess(GITIGNORE, DIRECTORY);
  }

  /** The indexes the two scans deliver. */
  lemma IndexesMatch(hash: seq<byte> -> Digest, s: seq<Record>, d: seq<Record>)
    requires s == [RecordAt(hash, GITIGNORE)]
    requires d == [RecordAt(hash, GITIGNORE), RecordAt(hash, STALE), RecordAt(hash, DIRECTORY)]
    ensures SourceIndex(ProblemHere(hash), s) && DestinationIndex(ProblemHere(hash), d)
  {
    hide ProblemHere, Less;
    ProblemIs(hash);
    NamesOrdered();
    assert s[0].path == [GITIGNORE] && s[0].path in PathsFrom(s, 0);
    assert d[0].path in PathsFrom(d, 0) && d[1].path in PathsFrom(d, 0) && d[2].path in PathsFrom(d, 0);
  }

  lemma IndexesAre(hash: seq<byte> -> Digest, s: seq<Record>, d: seq<Record>)
    requires SourceIndex(ProblemHere(hash), s) && DestinationIndex(ProblemHere(hash), d)
    ensures s == [RecordAt(hash, GITIGNORE)]
    ensures d == [RecordAt(hash, GITIGNORE), RecordAt(hash, STALE), RecordAt(hash, DIRECTORY)]
  {
    hide ProblemHere, RecordAt, Lookup;
    var s' := [RecordAt(hash, GITIGNORE)];
    var d' := [RecordAt(hash, GITIGNORE), RecordAt(hash, STALE), RecordAt(hash, DIRECTORY)];
    Meets(hash);
    IndexesMatch(hash, s', d');
    forall x ensures Lookup(s, 0, x) == Lookup(s', 0, x) && Lookup(d, 0, x) == Lookup(d', 0, x) {
      IndexLookup(ProblemHere(hash), s, d, x);
      IndexLookup(ProblemHere(hash), s', d', x);
    }
    IndexUnique(s, s');
    IndexUnique(d, d');
  }

  lemma PlanIs(hash: seq<byte> -> Digest, s: seq<Record>, d: seq<Record>)
    requires s == [RecordAt(hash, GITIGNORE)]
    requires d == [RecordAt(hash, GITIGNORE), RecordAt(hash, STALE), RecordAt(hash, DIRECTORY)]
    ensures Planned(s, d) == [Delete(0, [STALE], FileKind), Delete(1, [DIRECTORY], DirectoryKind)]
  {
    assert MergeDiff(s, d, 1, 3, 2) == [];
    assert MergeDiff(s, d, 1, 2, 1) == [Delete(1, [DIRECTORY], DirectoryKind)];
    assert MergeDiff(s, d, 1, 1, 0) == [Delete(0, [STALE], FileKind)] + MergeDiff(s, d, 1, 2, 1);
    Total([GITIGNORE], [GITIGNORE]);
    assert MergeDiff(s, d, 0, 0, 0) == MergeDiff(s, d, 1, 1, 0);
  }

  /**
   * Every attempt on these trees fails at its `rmdir`, the last thing it tries, with the stale file
   * already deleted, and the directory and the ignored file in it still there.
   */
  lemma IgnoredEntryObstructs(hash: seq<byte> -> Digest, root: Fs, s: seq<Record>, d: seq<Record>)
    requires root.nodes == DESTINATION
    requires SourceIndex(ProblemHere(hash), s) && DestinationIndex(ProblemHere(hash), d)
    ensures RootScannable(WalkOf(hash, SOURCE)) && RootScannable(WalkOf(hash, DESTINATION))
    ensures Compatible(WalkOf(hash, SOURCE), WalkOf(hash, DESTINATION)) && !Clear(ProblemHere(hash))
    ensures
      var entries := StageAll(ProblemHere(hash), Planned(s, d));
      var done := Run(root, entries);
      && !done.ok && JournalOf(root, entries) == [Tried([STALE]), Tried([DIRECTORY]), Tried([DIRECTORY])]
      && [STALE] in root.nodes && [STALE] !in done.value.fs.nodes
      && IsDir(done.value.fs.nodes, [DIRECTORY]) && KEPT in done.value.fs.nodes
  {
    Scans(hash, SOURCE);
    Scans(hash, DESTINATION);
    Meets(hash);
    IndexesAre(hash, s, d);
    PlanIs(hash, s, d);
    RunIs(ProblemHere(hash), root);
  }

  lemma RunIs(p: Problem, root: Fs)
    requires root.nodes == DESTINATION
    ensures
      var entries := StageAll(p, [Delete(0, [STALE], FileKind), Delete(1, [DIRECTORY], DirectoryKind)]);
      var done := Run(root, entries);
      && !done.ok && JournalOf(root, entries) == [Tried([STALE]), Tried([DIRECTORY]), Tried([DIRECTORY])]
      && [STALE] !in done.value.fs.nodes && IsDir(done.value.fs.nodes, [DIRECTORY]) && KEPT in done.value.fs.nodes
  {
    var e, f := StagedAs(p, Delete(0, [STALE], FileKind)), StagedAs(p, Delete(1, [DIRECTORY], DirectoryKind));
    assert StageAll(p, [e.operation, f.operation]) == [e, f];
    NamesPlain();
    ApplyTwo(Fresh(root), e, f);
    var removed := Remove(root, [STALE]);
    assert Apply(Fresh(root), e) == Outcome(State(removed, [], Some([STALE])), true);
    assert Alike(removed.nodes, root.nodes, KEPT);
    assert NameLess(STALE, DIRECTORY) && Less([STALE], [DIRECTORY]);
    Total([STALE], [DIRECTORY]);
    var waiting := State(removed, [Directory([DIRECTORY], [RemoveDirectory])], Some([DIRECTORY]));
    assert Defer([], [DIRECTORY], RemoveDirectory) == waiting.pending;
    assert Apply(State(removed, [], Some([STALE])), f) == Outcome(waiting, true);
    assert Ancestor([DIRECTORY], KEPT) && !Empty(removed.nodes, [DIRECTORY]);
    assert !Unlink(removed, [DIRECTORY], true).ok;
    assert FinishDirectory(waiting).value.fs == removed && !FinishDirectory(waiting).ok;
    assert FinishEvents(waiting) == [Tried([DIRECTORY])];
    assert ApplyEvents(Fresh(root), e) == [Tried([STALE])];
    assert ApplyEvents(State(removed, [], Some([STALE])), f) == [Tried([DIRECTORY])];
    JournalTwo(root, e, f);
  }

  lemma JournalTwo(root: Fs, e: Entry, f: Entry)
    requires Apply(Fresh(root), e).ok && Apply(Apply(Fresh(root), e).value, f).ok
    ensures
      var first := Apply(Fresh(root), e).value;
      JournalOf(root, [e, f]) ==
      ApplyEvents(Fresh(root), e) + (ApplyEvents(first, f) + FinishAllEvents(Apply(first, f).value))
  {
    var first := Apply(Fresh(root), e).value;
    assert [e, f][1..] == [f] && [f][1..] == [];
    assert RunEvents(first, [f]) == ApplyEvents(first, f) + FinishAllEvents(Apply(first, f).value);
  }
}
