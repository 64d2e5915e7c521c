/** Two scans make one reconciliation, and its plan can be staged. */
module Pipeline {
  import opened Paths
  import opened Records
  import opened Tree
  import opened Planner
  import opened PlanDiff
  import opened PendingCommitModel
  import opened Reconciliation
  import opened Convergence
  import opened Obstruction
  import opened Scan
  import opened Walking

  /** Two walks make a reconciliation: the source's managed entries against the destination's tree. */
  function ProblemOf(source: Walk, destination: Walk): Problem {
    Problem(source.hash,
            map x | x in source.nodes && Managed(source, x) :: source.nodes[x],
            destination.nodes,
            set x | x in destination.nodes && Managed(destination, x))
  }

  /** Stable trees that both sides can represent, each with rules of its own. */
  ghost predicate Compatible(source: Walk, destination: Walk) {
    && source.hash == destination.hash
    && WellFormed(source.nodes) && WellFormed(destination.nodes)
    && (forall x :: Managed(source, x) ==> Portable(source.nodes[x]))
  }

  lemma ProblemValid(source: Walk, destination: Walk)
    requires Compatible(source, destination)
    ensures Valid(ProblemOf(source, destination))
  {
    var p := ProblemOf(source, destination);
    forall a, x | x in p.source && Ancestor(a, x) ensures IsDir(p.source, a) {
      ManagedAbove(source, a, x);
    }
  }

  /** What the scans deliver are the indexes the plan needs. */
  lemma ScansAreIndexes(source: Walk, destination: Walk, s: seq<Record>, d: seq<Record>)
    requires Compatible(source, destination)
    requires Index(source, s, Under([])) && Index(destination, d, Under([]))
    ensures SourceIndex(ProblemOf(source, destination), s)
    ensures DestinationIndex(ProblemOf(source, destination), d)
  {
  }

  /** A merge position yields at most two operations. */
  lemma {:induction false} PlanBound(s: seq<Record>, d: seq<Record>, i: nat, j: nat, id: nat)
    requires i <= |s| && j <= |d|
    ensures |MergeDiff(s, d, i, j, id)| <= 2 * (|s| - i + |d| - j)
    decreases |s| - i + |d| - j
  {
    if i < |s| || j < |d| {
      var left, right := Head(s, i), Head(d, j);
      Progress(left, right);
      PlanBound(s, d, Next(i, Takes(left, right)), Next(j, Takes(right, left)), id + |OpsAt(left, right, id)|);
    }
  }

  /** The staged form of a numbered plan is numbered. */
  lemma StagedCounting(p: Problem, s: seq<Record>, d: seq<Record>)
    requires Sorted(s) && Sorted(d)
    ensures Counting(StageAll(p, Planned(s, d)), 0)
  {
    PlanNumbered(s, d, 0, 0, 0);
  }

  /** An operation with a path and, when it upserts a file, a source file to stage. */
  predicate Stageable(p: Problem, op: Operation) {
    op.At() != [] && (op.UpsertFile? ==> op.At() in p.source && p.source[op.At()].File?)
  }

  lemma PlannedStageable(p: Problem, s: seq<Record>, d: seq<Record>, op: Operation)
    requires Valid(p) && SourceIndex(p, s) && DestinationIndex(p, d) && op in Planned(s, d)
    ensures Stageable(p, op)
  {
    var first := PlannedFrom(p, s, d, op);
    OpsStageable(p, op.At(), first, op);
  }

  lemma OpsStageable(p: Problem, x: Path, id: nat, op: Operation)
    requires Valid(p) && op in OpsFor(Wanted(p, x), Present(p, x), id) && x == op.At()
    ensures Stageable(p, op)
  {
  }

  function Without<T>(s: seq<T>, k: nat): seq<T>
    requires k < |s|
  {
    s[..k] + s[k + 1..]
  }

  lemma TakeOut<T>(s: seq<T>, k: nat)
    requires k < |s|
    ensures multiset(s) == multiset(Without(s, k)) + multiset{s[k]}
    ensures multiset(Without(s, k)) == multiset(s) - multiset{s[k]}
  {
    assert s == s[..k] + [s[k]] + s[k + 1..];
  }

  lemma StageWithout(p: Problem, s: seq<Operation>, k: nat)
    requires k < |s|
    ensures StageAll(p, Without(s, k)) == Without(StageAll(p, s), k)
    ensures multiset(StageAll(p, s)) == multiset(StageAll(p, Without(s, k))) + multiset{StagedAs(p, s[k])}
  {
    TakeOut(StageAll(p, s), k);
  }

  /** Staging a rearrangement is a rearrangement of the staged changes. */
  lemma {:induction false} StagedMultiset(p: Problem, a: seq<Operation>, b: seq<Operation>)
    requires multiset(a) == multiset(b)
    ensures multiset(StageAll(p, a)) == multiset(StageAll(p, b))
    decreases |a|
  {
    if a == [] {
      assert b == [] by { assert |multiset(b)| == |b|; }
    } else {
      assert a[0] in multiset(b);
      var k :| 0 <= k < |b| && b[k] == a[0];
      TakeOut(a, 0);
      TakeOut(b, k);
      StageWithout(p, a, 0);
      StageWithout(p, b, k);
      hide *;
      StagedMultiset(p, Without(a, 0), Without(b, k));
    }
  }
}
