/**
 * The main result: committing the streamed plan turns the destination into the source when nothing
 * the destination does not manage is in the way.
 */
module Convergence {
  import opened Paths
  import opened Records
  import opened Planner
  import opened PlanDiff
  import opened Tree
  import opened Commit
  import opened Reconciliation
  import opened Closing
  import opened Applying

  /** `s` is the scan of the source: strictly sorted, every managed entry, nothing else. */
  ghost predicate SourceIndex(p: Problem, s: seq<Record>) {
    && Sorted(s)
    && (forall k :: 0 <= k < |s| ==> Wanted(p, s[k].path) == Some(s[k]))
    && (forall x :: x in p.source ==> x in PathsFrom(s, 0))
  }

  ghost predicate DestinationIndex(p: Problem, d: seq<Record>) {
    && Sorted(d)
    && (forall k :: 0 <= k < |d| ==> Present(p, d[k].path) == Some(d[k]))
    && (forall x :: x in p.managed ==> x in PathsFrom(d, 0))
  }

  function Planned(s: seq<Record>, d: seq<Record>): seq<Operation> {
    MergeDiff(s, d, 0, 0, 0)
  }

  function Todo(s: seq<Record>, d: seq<Record>, i: nat, j: nat): set<Path> {
    PathsFrom(s, i) + PathsFrom(d, j)
  }

  /** The rest of an index that starts with `q` is `q` and the rest after it. */
  lemma PathsStep(s: seq<Record>, i: nat)
    requires i < |s|
    ensures PathsFrom(s, i) == {s[i].path} + PathsFrom(s, i + 1)
  {
  }

  lemma PathsAfter(s: seq<Record>, i: nat, q: Path, r: Path)
    requires Sorted(s) && i <= |s| && (i < |s| ==> AtMost(q, s[i].path)) && r in PathsFrom(s, i)
    ensures AtMost(q, r)
  {
    var k :| i <= k < |s| && s[k].path == r;
    if k > i && q != s[i].path { Transitive(q, s[i].path, r); }
  }

  lemma NotAfter(s: seq<Record>, i: nat, q: Path)
    requires Sorted(s) && (i < |s| ==> Less(q, s[i].path))
    ensures q !in PathsFrom(s, i)
  {
    if k :| i <= k < |s| && s[k].path == q {
      if k > i { Transitive(q, s[i].path, q); }
      Total(q, q);
    }
  }

  /** The front is the least path still to be planned, and consuming it leaves the others. */
  lemma FrontLeast(s: seq<Record>, d: seq<Record>, i: nat, j: nat, q: Path, i': nat, j': nat)
    requires Sorted(s) && Sorted(d) && i <= |s| && j <= |d| && (i < |s| || j < |d|)
    requires q == Front(s, d, i, j)
    requires i' == (if i < |s| && s[i].path == q then i + 1 else i)
    requires j' == (if j < |d| && d[j].path == q then j + 1 else j)
    ensures Least(q, Todo(s, d, i, j)) && Todo(s, d, i', j') == Todo(s, d, i, j) - {q}
  {
    FrontFacts(s, d, i, j);
    if i < |s| { PathsStep(s, i); Total(q, s[i].path); }
    if j < |d| { PathsStep(d, j); Total(q, d[j].path); }
    forall r | r in Todo(s, d, i, j) ensures AtMost(q, r) {
      if r in PathsFrom(s, i) { PathsAfter(s, i, q, r); } else { PathsAfter(d, j, q, r); }
    }
    NotAfter(s, i', q);
    NotAfter(d, j', q);
  }

  /** An index consumed up to `i` has no entry left at the front path but the one at `i`. */
  lemma LookupIs(s: seq<Record>, i: nat, q: Path)
    requires Sorted(s) && i <= |s|
    requires forall k :: 0 <= k < i ==> Less(s[k].path, q)
    requires i < |s| ==> AtMost(q, s[i].path)
    ensures Lookup(s, i, q) == (if i < |s| && s[i].path == q then Some(s[i]) else None)
    ensures q in PathsFrom(s, 0) <==> i < |s| && s[i].path == q
  {
    if !(i < |s| && s[i].path == q) {
      LookupBefore(s, i, q);
      NotAfter(s, i, q);
      Total(q, q);
    }
  }

  /** Everything consumed so far comes before everything still to be planned. */
  ghost predicate Behind(s: seq<Record>, i: nat, todo: set<Path>) {
    forall k, r :: 0 <= k < i <= |s| && r in todo ==> Less(s[k].path, r)
  }

  lemma BehindNext(s: seq<Record>, i: nat, todo: set<Path>, q: Path, i': nat)
    requires i <= |s| && Behind(s, i, todo) && Least(q, todo)
    requires i' == (if i < |s| && s[i].path == q then i + 1 else i)
    ensures Behind(s, i', todo - {q})
  {
  }

  lemma StageAppend(p: Problem, a: seq<Operation>, b: seq<Operation>)
    ensures StageAll(p, a + b) == StageAll(p, a) + StageAll(p, b)
  {
  }

  /** The front's index entries are the wanted and the present record at that path. */
  lemma FrontRecords(p: Problem, s: seq<Record>, d: seq<Record>, i: nat, j: nat, q: Path)
    requires Valid(p) && SourceIndex(p, s) && DestinationIndex(p, d)
    requires i <= |s| && j <= |d| && (i < |s| || j < |d|) && q == Front(s, d, i, j)
    requires Behind(s, i, Todo(s, d, i, j)) && Behind(d, j, Todo(s, d, i, j))
    requires q in Todo(s, d, i, j)
    ensures Lookup(s, i, q) == Wanted(p, q) && Lookup(d, j, q) == Present(p, q)
  {
    FrontFacts(s, d, i, j);
    LookupIs(s, i, q);
    LookupIs(d, j, q);
    if q in PathsFrom(s, 0) {
      assert Wanted(p, s[i].path) == Some(s[i]);
    }
    if q in PathsFrom(d, 0) {
      assert Present(p, d[j].path) == Some(d[j]);
    }
  }

  /** The commit has carried out the plan up to position `i`, `j` of the merge. */
  ghost predicate Reached(p: Problem, st: State, s: seq<Record>, d: seq<Record>, i: nat, j: nat) {
    && i <= |s| && j <= |d|
    && Inv(p, st, Todo(s, d, i, j))
    && Behind(s, i, Todo(s, d, i, j)) && Behind(d, j, Todo(s, d, i, j))
  }

  /** One turn of the merge, committed. */
  lemma TurnCommits(p: Problem, st: State, s: seq<Record>, d: seq<Record>, i: nat, j: nat, id: nat)
    returns (ops: seq<Operation>, i': nat, j': nat)
    requires Valid(p) && Clear(p) && SourceIndex(p, s) && DestinationIndex(p, d)
    requires Reached(p, st, s, d, i, j) && (i < |s| || j < |d|)
    ensures i' <= |s| && j' <= |d| && i + j < i' + j'
    ensures MergeDiff(s, d, i, j, id) == ops + MergeDiff(s, d, i', j', id + |ops|)
    ensures ApplyAll(st, StageAll(p, ops)).ok
    ensures Reached(p, ApplyAll(st, StageAll(p, ops)).value, s, d, i', j')
  {
    var todo := Todo(s, d, i, j);
    var q;
    q, ops, i', j' := Turn(s, d, i, j, id);
    FrontLeast(s, d, i, j, q, i', j');
    FrontRecords(p, s, d, i, j, q);
    PathStep(p, st, todo, q, id);
    BehindNext(s, i, todo, q, i');
    BehindNext(d, j, todo, q, j');
  }

  /** These operations commit, and leave nothing to be planned. */
  ghost predicate Commits(p: Problem, st: State, ops: seq<Operation>) {
    var done := ApplyAll(st, StageAll(p, ops));
    done.ok && Inv(p, done.value, {})
  }

  lemma CommitsNothing(p: Problem, st: State)
    requires Inv(p, st, {})
    ensures Commits(p, st, [])
  {
  }

  lemma CommitsAppend(p: Problem, st: State, plan: seq<Operation>, ops: seq<Operation>, rest: seq<Operation>)
    requires plan == ops + rest && ApplyAll(st, StageAll(p, ops)).ok
    requires Commits(p, ApplyAll(st, StageAll(p, ops)).value, rest)
    ensures Commits(p, st, plan)
  {
    StageAppend(p, ops, rest);
    ApplyAllAppend(st, StageAll(p, ops), StageAll(p, rest));
  }

  /** From any point of the merge, the rest of the plan commits. */
  lemma {:induction false} PlanCommits(p: Problem, st: State, s: seq<Record>, d: seq<Record>, i: nat, j: nat, id: nat)
    requires Valid(p) && Clear(p) && SourceIndex(p, s) && DestinationIndex(p, d)
    requires Reached(p, st, s, d, i, j)
    ensures Commits(p, st, MergeDiff(s, d, i, j, id))
    decreases |s| - i + |d| - j
  {
    hide ApplyAll, Inv, Valid, SourceIndex, DestinationIndex, Clear;
    if i == |s| && j == |d| {
      assert Todo(s, d, i, j) == {};
      CommitsNothing(p, st);
    } else {
      var ops, i', j' := TurnCommits(p, st, s, d, i, j, id);
      PlanCommits(p, ApplyAll(st, StageAll(p, ops)).value, s, d, i', j', id + |ops|);
      CommitsAppend(p, st, MergeDiff(s, d, i, j, id), ops, MergeDiff(s, d, i', j', id + |ops|));
    }
  }

  lemma Start(p: Problem, fs: Fs, s: seq<Record>, d: seq<Record>)
    requires Valid(p) && SourceIndex(p, s) && DestinationIndex(p, d) && fs.nodes == p.init
    ensures Inv(p, Fresh(fs), Todo(s, d, 0, 0))
  {
  }

  /** The source's paths and the managed ones are as the source has them; the rest is as it was. */
  ghost predicate Synchronized(p: Problem, n: Nodes) {
    forall x :: if Involved(p, x) then Settled(p, n, x) else Alike(n, p.init, x)
  }

  /**
   * Convergence. For every pair of scanned trees, whatever rules either side manages its entries by,
   * with nothing unmanaged in the way the commit never fails and the destination becomes the source.
   */
  lemma Converges(p: Problem, fs: Fs, s: seq<Record>, d: seq<Record>)
    requires Valid(p) && Clear(p) && SourceIndex(p, s) && DestinationIndex(p, d) && fs.nodes == p.init
    ensures
      var done := Run(fs, StageAll(p, Planned(s, d)));
      done.ok && Synchronized(p, done.value.fs.nodes)
  {
    Start(p, fs, s, d);
    PlanCommits(p, Fresh(fs), s, d, 0, 0, 0);
    assert Commits(p, Fresh(fs), Planned(s, d));
    var done := ApplyAll(Fresh(fs), StageAll(p, Planned(s, d))).value;
    FinishAllSucceeds(p, done);
    var n := Finish(done).value.fs.nodes;
    assert Open([]) == {};
    forall x ensures if Involved(p, x) then Settled(p, n, x) else Alike(n, p.init, x) {
      assert NodeOk(p, n, {}, {}, x);
    }
  }

  /** Two files at the path whose digests agree have the same content. */
  predicate DigestDecides(p: Problem, x: Path) {
    x in p.init && x in p.source && p.init[x].File? && p.source[x].File?
    && p.hash(p.init[x].content) == p.hash(p.source[x].content)
    ==> p.init[x].content == p.source[x].content
  }

  /**
   * What synchronized means for every managed path: the same paths and kinds, file contents, link
   * targets, modes and file and link times as the source; directory times too, except where the
   * two directories were already indexed alike and so got no operation.
   */
  lemma MirrorsSource(p: Problem, n: Nodes, x: Path)
    requires Valid(p) && DigestDecides(p, x) && Synchronized(p, n) && Involved(p, x)
    ensures x in n <==> x in p.source
    ensures x in n ==> SameEntry(n[x], p.source[x])
    ensures x in n && n[x].Dir? && Changed(p, x) ==> n[x].mtime == p.source[x].mtime
  {
  }
}
