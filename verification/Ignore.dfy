/** Scoped ignore rules. How one rule file matches a path is left to the matcher. */
module Ignore {
  import opened Paths
  import opened Records

  datatype Verdict = NoMatch | Ignored | Whitelisted
  datatype Decision = ManagedEntry | IgnoredEntry | ProtectedEntry

  /** A rule file and the directory holding it; the root is the empty path. */
  datatype RuleSet = RuleSet(scope: Path, contents: seq<byte>)

  /** The gitignore library: whether a file is valid, and what it says about a path below its scope. */
  datatype Matcher = Matcher(parses: seq<byte> -> bool, verdict: (RuleSet, Path, bool) -> Verdict)

  /** `x` lies strictly below the directory `scope`, which may be the root. */
  predicate Within(scope: Path, x: Path) {
    |scope| < |x| && x[..|scope|] == scope
  }

  /** The rule sets' verdicts in order; the last one that matches decides. */
  function IgnoredBy(m: Matcher, scoped: seq<RuleSet>, path: Path, isDir: bool): bool {
    if scoped == [] then false
    else
      var last := scoped[|scoped| - 1];
      var verdict := if Within(last.scope, path) then m.verdict(last, path[|last.scope|..], isDir) else NoMatch;
      match verdict
      case NoMatch => IgnoredBy(m, scoped[..|scoped| - 1], path, isDir)
      case Ignored => true
      case Whitelisted => false
  }

  function Decide(m: Matcher, scoped: seq<RuleSet>, path: Path, kind: Kind): Decision {
    if Protected(path) then ProtectedEntry
    else if IgnoredBy(m, scoped, path, kind == DirectoryKind) then IgnoredEntry
    else ManagedEntry
  }

  /** The rule set's directory is above the path and its file has this to say about the rest of it. */
  predicate Says(m: Matcher, rules: RuleSet, path: Path, isDir: bool, verdict: Verdict) {
    && |rules.scope| < |path| && (forall i :: 0 <= i < |rules.scope| ==> path[i] == rules.scope[i])
    && m.verdict(rules, path[|rules.scope|..], isDir) == verdict
  }

  /** Rule set `k` ignores the path, and none after it says anything. */
  predicate LastToIgnore(m: Matcher, scoped: seq<RuleSet>, k: nat, path: Path, isDir: bool)
    requires k < |scoped|
  {
    && Says(m, scoped[k], path, isDir, Ignored)
    && forall l :: k < l < |scoped| ==>
         !Says(m, scoped[l], path, isDir, Ignored) && !Says(m, scoped[l], path, isDir, Whitelisted)
  }

  ghost predicate SomeLastIgnores(m: Matcher, scoped: seq<RuleSet>, path: Path, isDir: bool) {
    exists k :: 0 <= k < |scoped| && LastToIgnore(m, scoped, k, path, isDir)
  }

  /** A rule set put last has its way when it says something, and changes nothing otherwise. */
  lemma LastPut(m: Matcher, scoped: seq<RuleSet>, last: RuleSet, path: Path, isDir: bool)
    ensures
      SomeLastIgnores(m, scoped + [last], path, isDir) <==>
      Says(m, last, path, isDir, Ignored)
      || (!Says(m, last, path, isDir, Whitelisted) && SomeLastIgnores(m, scoped, path, isDir))
  {
    hide Says;
    var all := scoped + [last];
    assert all[|scoped|] == last;
    if Says(m, last, path, isDir, Ignored) {
      assert LastToIgnore(m, all, |scoped|, path, isDir);
    } else {
      forall k | 0 <= k < |scoped|
        ensures LastToIgnore(m, all, k, path, isDir) <==>
                LastToIgnore(m, scoped, k, path, isDir) && !Says(m, last, path, isDir, Whitelisted)
      {
        assert forall l :: 0 <= l < |scoped| ==> all[l] == scoped[l];
        assert k < |scoped| < |all|;
      }
    }
  }

  /** The last rule set with an opinion decides, and a path nobody has one about is not ignored. */
  lemma {:induction false} IgnoredByIff(m: Matcher, scoped: seq<RuleSet>, path: Path, isDir: bool)
    ensures IgnoredBy(m, scoped, path, isDir) <==> SomeLastIgnores(m, scoped, path, isDir)
    decreases |scoped|
  {
    hide SomeLastIgnores;
    if scoped == [] {
      NobodyIgnores(m, path, isDir);
    } else {
      var front, last := scoped[..|scoped| - 1], scoped[|scoped| - 1];
      IgnoredByIff(m, front, path, isDir);
      LastPut(m, front, last, path, isDir);
      assert front + [last] == scoped;
      assert Within(last.scope, path) <==>
             |last.scope| < |path| && forall i :: 0 <= i < |last.scope| ==> path[i] == last.scope[i];
    }
  }

  lemma NobodyIgnores(m: Matcher, path: Path, isDir: bool)
    ensures !SomeLastIgnores(m, [], path, isDir)
  {
  }

  class IgnorePolicy {
    const matcher: Matcher
    var scoped: seq<RuleSet>

    constructor (matcher: Matcher)
      ensures this.matcher == matcher && scoped == []
    {
      this.matcher := matcher;
      scoped := [];
    }

    method AddIgnoreContents(scope: Path, contents: seq<byte>) returns (ok: bool)
      modifies this
      ensures ok <==> matcher.parses(contents)
      ensures scoped == if ok then old(scoped) + [RuleSet(scope, contents)] else old(scoped)
    {
      if !matcher.parses(contents) { return false; }
      scoped := scoped + [RuleSet(scope, contents)];
      return true;
    }

    method Checkpoint() returns (n: nat)
      ensures n == |scoped|
    {
      n := |scoped|;
    }

    /** Drops the rules of a finished directory. */
    method Restore(checkpoint: nat)
      modifies this
      ensures scoped == if checkpoint < |old(scoped)| then old(scoped)[..checkpoint] else old(scoped)
    {
      if checkpoint < |scoped| { scoped := scoped[..checkpoint]; }
    }

    /** One pass in order, each match overriding the ones before. */
    method DecisionFor(path: Path, kind: Kind) returns (decision: Decision)
      ensures decision == Decide(matcher, scoped, path, kind)
      ensures decision == ProtectedEntry <==> exists i :: 0 <= i < |path| && Reserved(path[i])
      ensures decision != ProtectedEntry ==>
                (decision == IgnoredEntry <==> SomeLastIgnores(matcher, scoped, path, kind == DirectoryKind))
    {
      ProtectedIff(path);
      IgnoredByIff(matcher, scoped, path, kind == DirectoryKind);
      if Protected(path) { return ProtectedEntry; }
      var ignored := false;
      for i := 0 to |scoped|
        invariant ignored == IgnoredBy(matcher, scoped[..i], path, kind == DirectoryKind)
      {
        assert scoped[..i + 1][..i] == scoped[..i];
        if Within(scoped[i].scope, path) {
          match matcher.verdict(scoped[i], path[|scoped[i].scope|..], kind == DirectoryKind)
          case NoMatch =>
          case Ignored => ignored := true;
          case Whitelisted => ignored := false;
        }
      }
      assert scoped[..|scoped|] == scoped;
      return if ignored then IgnoredEntry else ManagedEntry;
    }
  }
}
