/**
 * Where both sides hold the same rule files, the second attempt manages exactly the source's entries,
 * unless the source's exclusions hide one of those files from it.
 */
module SecondScan {
  import opened Paths
  import opened Records
  import opened Tree
  import opened Reconciliation
  import opened Convergence
  import opened Fixpoint
  import opened Ignore
  import opened Scan
  import opened Pipeline

  /** The walk without its configured exclusions. */
  function Bare(w: Walk): Walk {
    w.(configured := [])
  }

  /** The same exclusions, and the same rule file or none in every directory. */
  ghost predicate SameRules(w: Walk, w': Walk) {
    && w.matcher == w'.matcher && w.configured == w'.configured
    && forall dir :: OwnRules(w, dir) == OwnRules(w', dir)
  }

  /** The same rule files; the destination has no exclusions, the source may have any. */
  ghost predicate RulesAgree(source: Walk, destination: Walk) {
    SameRules(Bare(source), destination)
  }

  /** Rule sets put first can only ignore more: a later one that matches still decides. */
  lemma {:induction false} IgnoredMore(m: Matcher, first: seq<RuleSet>, rules: seq<RuleSet>, path: Path, isDir: bool)
    requires IgnoredBy(m, rules, path, isDir)
    ensures IgnoredBy(m, first + rules, path, isDir)
    decreases |rules|
  {
    var front, all := rules[..|rules| - 1], first + rules;
    assert all[..|all| - 1] == first + front && all[|all| - 1] == rules[|rules| - 1];
    var last := rules[|rules| - 1];
    var verdict := if Within(last.scope, path) then m.verdict(last, path[|last.scope|..], isDir) else NoMatch;
    if verdict == NoMatch { IgnoredMore(m, first, front, path, isDir); }
  }

  lemma {:induction false} BarePolicy(w: Walk, dir: Path)
    ensures PolicyIn(w, dir) == w.configured + PolicyIn(Bare(w), dir)
    decreases |dir|
  {
    assert OwnRules(w, dir) == OwnRules(Bare(w), dir);
    if dir != [] {
      BarePolicy(w, Parent(dir));
      assert (w.configured + PolicyIn(Bare(w), Parent(dir))) + OwnRules(w, dir)
          == w.configured + (PolicyIn(Bare(w), Parent(dir)) + OwnRules(w, dir));
    }
  }

  /** Giving up the exclusions never unmanages an entry. */
  lemma {:induction false} BareManages(w: Walk, x: Path)
    requires Managed(w, x)
    ensures Managed(Bare(w), x)
    decreases |x|
  {
    if |x| > 1 { BareManages(w, Parent(x)); }
    BarePolicy(w, Parent(x));
    var rules, isDir := PolicyIn(Bare(w), Parent(x)), KindOf(w.nodes[x]) == DirectoryKind;
    if IgnoredBy(w.matcher, rules, x, isDir) { IgnoredMore(w.matcher, w.configured, rules, x, isDir); }
  }

  /** A rule file that the exclusions alone keep the source from managing. */
  predicate HidesRules(source: Walk, dir: Path) {
    var file := dir + [GITIGNORE];
    OwnRules(source, dir) != [] && Managed(Bare(source), file) && !Managed(source, file)
  }

  /** The same kind of entry at `x`, reached through directories in both trees. */
  lemma ReachedAlike(w: Walk, w': Walk, x: Path)
    requires SameRules(w, w') && WellFormed(w.nodes) && WellFormed(w'.nodes)
    requires x in w.nodes && x in w'.nodes && KindOf(w.nodes[x]) == KindOf(w'.nodes[x])
    ensures Managed(w, x) <==> Managed(w', x)
  {
    forall k | 0 < k <= |x| ensures SameKindAt(w, w', x[..k]) {
      if k < |x| { assert Ancestor(x[..k], x); } else { assert x[..k] == x; }
    }
    ManagedLocal(w, w', x);
  }

  ghost predicate Synced(source: Walk, destination: Walk, n: Nodes) {
    && Compatible(source, destination) && RulesAgree(source, destination)
    && Synchronized(ProblemOf(source, destination), n) && WellFormed(n)
  }

  /** A source-managed entry arrived with its kind. */
  lemma ArrivedKind(source: Walk, destination: Walk, n: Nodes, x: Path)
    requires Synced(source, destination, n) && Managed(source, x)
    ensures x in n && KindOf(n[x]) == KindOf(source.nodes[x])
    ensures
      (source.nodes[x].File? && x in destination.nodes && destination.nodes[x].File?
       && destination.nodes[x].content == source.nodes[x].content) ==> n[x].content == source.nodes[x].content
  {
    var p := ProblemOf(source, destination);
    assert Settled(p, n, x);
  }

  /** The sync keeps a directory's rules exactly when the source's exclusions do not hide their file. */
  lemma RulesKeptIff(source: Walk, destination: Walk, n: Nodes, dir: Path)
    requires Synced(source, destination, n)
    ensures OwnRules(destination.(nodes := n), dir) == OwnRules(source, dir) <==> !HidesRules(source, dir)
  {
    var p, g := ProblemOf(source, destination), dir + [GITIGNORE];
    assert OwnRules(source, dir) == OwnRules(Bare(source), dir) == OwnRules(destination, dir);
    if g in source.nodes && source.nodes[g].File? { ReachedAlike(Bare(source), destination, g); }
    if g in p.source {
      assert Settled(p, n, g);
      ArrivedKind(source, destination, n, g);
    } else if g in p.managed {
      assert Settled(p, n, g);
    } else {
      assert Alike(n, p.init, g);
    }
  }

  /**
   * The second attempt. After a sync, whatever the source excludes, a fresh scan of the destination
   * manages exactly the source's paths when no rule file is hidden: nothing the sync left alone
   * becomes managed, and nothing it brought is ignored.
   */
  lemma SecondAttempt(source: Walk, destination: Walk, n: Nodes)
    requires Synced(source, destination, n) && forall dir :: !HidesRules(source, dir)
    ensures ProblemOf(source, destination.(nodes := n)) == Again(ProblemOf(source, destination), n)
    ensures Compatible(source, destination.(nodes := n)) && RulesAgree(source, destination.(nodes := n))
  {
    hide HidesRules;
    var p, w := ProblemOf(source, destination), destination.(nodes := n);
    forall dir ensures OwnRules(w, dir) == OwnRules(Bare(source), dir) == OwnRules(destination, dir) {
      RulesKeptIff(source, destination, n, dir);
      assert OwnRules(source, dir) == OwnRules(Bare(source), dir);
    }
    forall x ensures x in n && Managed(w, x) <==> x in p.source {
      if x in p.source {
        ArrivedKind(source, destination, n, x);
        BareManages(source, x);
        ReachedAlike(Bare(source), w, x);
      } else if x in n {
        assert if Involved(p, x) then Settled(p, n, x) else Alike(n, p.init, x);
        ReachedAlike(destination, w, x);
      }
    }
    assert ProblemOf(source, w).managed == p.source.Keys;
  }

  /** A source without exclusions hides nothing. */
  lemma NothingHidden(source: Walk, dir: Path)
    requires source.configured == []
    ensures !HidesRules(source, dir)
  {
    assert Bare(source) == source;
  }
}
