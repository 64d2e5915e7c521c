/**
 * A source that excludes its own rule file: the first sync deletes the destination's copy, and the
 * second one deletes the file that copy had kept out of the destination's index.
 */
module Hidden {
  import opened Paths
  import opened Records
  import opened Tree
  import opened Reconciliation
  import opened Convergence
  import opened Ignore
  import opened Scan
  import opened Walking
  import opened Pipeline
  import opened Obstacle
  import opened SecondScan

  /** The rule "x", in both trees, and the source's exclusion ".gitignore". */
  const CACHE_RULE: Node := File(0x1a4, 0, CACHE)
  const EXCLUSION: RuleSet := RuleSet([], GITIGNORE)

  const SENT: Nodes := map[[GITIGNORE] := CACHE_RULE]
  const HELD: Nodes := map[[GITIGNORE] := CACHE_RULE, [CACHE] := LEAF]

  function NameMatcher(): Matcher {
    Matcher(_ => true, (rules: RuleSet, path: Path, isDir: bool) =>
      if path == [rules.contents] then Ignored else NoMatch)
  }

  function Excluding(hash: seq<byte> -> Digest): Walk {
    Walk(hash, NameMatcher(), [EXCLUSION], 256, 4096, SENT)
  }

  function Holding(hash: seq<byte> -> Digest, nodes: Nodes): Walk {
    Walk(hash, NameMatcher(), [], 256, 4096, nodes)
  }

  /** Rules of the root, for a name in it. */
  lemma {:induction false} IgnoredName(scoped: seq<RuleSet>, n: Name, isDir: bool)
    requires forall rules :: rules in scoped ==> rules.scope == []
    ensures IgnoredBy(NameMatcher(), scoped, [n], isDir) <==> exists rules :: rules in scoped && rules.contents == n
  {
    if scoped != [] {
      var front, last := scoped[..|scoped| - 1], scoped[|scoped| - 1];
      assert scoped == front + [last];
      assert Within([], [n]) && [n][0..] == [n];
      assert NameMatcher().verdict(last, [n], isDir) == if n == last.contents then Ignored else NoMatch;
      IgnoredName(front, n, isDir);
    }
  }

  /** In a tree of files, an entry is managed unless it is protected or a rule of the root names it. */
  lemma ManagedName(w: Walk, n: Name)
    requires w.matcher == NameMatcher() && (forall rules :: rules in w.configured ==> rules.scope == [])
    requires [n] in w.nodes && n != QUICSYNC && n != GIT
    ensures Managed(w, [n]) <==> forall rules :: rules in w.configured + OwnRules(w, []) ==> rules.contents != n
  {
    assert Parent([n]) == [];
    assert [] + [GITIGNORE] == [GITIGNORE];
    IgnoredName(PolicyIn(w, []), n, KindOf(w.nodes[[n]]) == DirectoryKind);
  }

  lemma NotThere(w: Walk, x: Path)
    requires x !in w.nodes
    ensures !Managed(w, x)
  {
  }

  lemma NameFits(w: Walk, n: Name)
    requires w.maxComponents == 256 && w.maxPathBytes == 4096 && ValidName(n) && |n| < 100
    ensures InBounds(w, [n])
  {
    assert [n][1..] == [];
  }

  /** A tree of these files scans. */
  lemma NamesScan(w: Walk)
    requires w.matcher == NameMatcher() && w.maxComponents == 256 && w.maxPathBytes == 4096
    requires forall x :: x in w.nodes ==> (x == [GITIGNORE] || x == [CACHE]) && w.nodes[x].File?
    ensures RootScannable(w) && WellFormed(w.nodes)
  {
    hide IgnoredBy, PolicyIn;
    NamesPlain();
    assert |GITIGNORE| == 10;
    NameFits(w, GITIGNORE);
    NameFits(w, CACHE);
  }

  /** The first attempt leaves only the ignored file. */
  lemma FirstSync(hash: seq<byte> -> Digest, n: Nodes)
    requires Synchronized(ProblemOf(Excluding(hash), Holding(hash, HELD)), n)
    ensures n.Keys == {[CACHE]} && n[[CACHE]].File?
    ensures Clear(ProblemOf(Excluding(hash), Holding(hash, HELD)))
    ensures Compatible(Excluding(hash), Holding(hash, HELD)) && HidesRules(Excluding(hash), [])
  {
    hide Managed, IgnoredBy, PolicyIn, ValidName;
    var source, destination := Excluding(hash), Holding(hash, HELD);
    var p := ProblemOf(source, destination);
    NamesPlain();
    assert |GITIGNORE| == 10 && [] + [GITIGNORE] == [GITIGNORE];
    NamesScan(source);
    NamesScan(destination);
    ManagedName(source, GITIGNORE);
    ManagedName(Bare(source), GITIGNORE);
    ManagedName(destination, GITIGNORE);
    ManagedName(destination, CACHE);
    assert OwnRules(destination, []) == [RuleSet([], CACHE)] == OwnRules(source, []);
    assert EXCLUSION in source.configured + OwnRules(source, []);
    assert p.source == map[] && p.managed == {[GITIGNORE]};
    forall x ensures !Managed(source, x) { if x != [GITIGNORE] { NotThere(source, x); } }
    forall x ensures x in n <==> x == [CACHE] {
      assert if Involved(p, x) then Settled(p, n, x) else Alike(n, p.init, x);
    }
    assert Alike(n, p.init, [CACHE]);
  }

  /**
   * Two attempts that both succeed: the exclusion hides the source's rule file, and the file that the
   * same rule kept the first attempt from touching is gone after the second.
   */
  lemma HiddenRuleExposes(hash: seq<byte> -> Digest, n: Nodes, n': Nodes)
    requires Synchronized(ProblemOf(Excluding(hash), Holding(hash, HELD)), n)
    requires Synchronized(ProblemOf(Excluding(hash), Holding(hash, n)), n')
    ensures RootScannable(Excluding(hash)) && RootScannable(Holding(hash, HELD)) && RootScannable(Holding(hash, n))
    ensures RulesAgree(Excluding(hash), Holding(hash, HELD)) && HidesRules(Excluding(hash), [])
    ensures Clear(ProblemOf(Excluding(hash), Holding(hash, HELD))) && Clear(ProblemOf(Excluding(hash), Holding(hash, n)))
    ensures [CACHE] in n && [CACHE] !in n'
  {
    hide Managed, IgnoredBy, PolicyIn, ValidName;
    var source, w := Excluding(hash), Holding(hash, n);
    FirstSync(hash, n);
    NamesScan(source);
    NamesScan(Holding(hash, HELD));
    NamesScan(w);
    NamesPlain();
    assert |GITIGNORE| == 10 && [] + [GITIGNORE] == [GITIGNORE];
    assert OwnRules(w, []) == [];
    ManagedName(w, CACHE);
    ManagedName(source, GITIGNORE);
    assert EXCLUSION in source.configured + OwnRules(source, []);
    var p := ProblemOf(source, w);
    assert p.source == map[] && p.managed == {[CACHE]};
    assert Settled(p, n', [CACHE]);
  }
}
