/** Syncing again: the second plan only restamps directories, the third does nothing. */
module Fixpoint {
  import opened Paths
  import opened Records
  import opened PlanDiff
  import opened Tree
  import opened Commit
  import opened Frame
  import opened Reconciliation
  import opened Convergence
  import opened Obstruction

  /** The next attempt, when exactly the source's entries are managed on the destination. */
  function Again(p: Problem, n: Nodes): Problem {
    Problem(p.hash, p.source, n, p.source.Keys)
  }

  /** A synchronized tree is a valid start, and nothing stands in the way any more. */
  lemma AgainValid(p: Problem, n: Nodes)
    requires Valid(p) && Synchronized(p, n) && WellFormed(n)
    ensures Valid(Again(p, n)) && Clear(Again(p, n))
  {
    forall x | x in p.source ensures x in n && KindOf(n[x]) == KindOf(p.source[x]) {
      assert Settled(p, n, x);
    }
  }

  /** Only a directory's time or size can still differ after a sync. */
  lemma OnlyDirectoriesDiffer(p: Problem, n: Nodes, x: Path)
    requires Valid(p) && Synchronized(p, n)
    ensures Changed(Again(p, n), x) <==>
              IsDir(p.source, x) && IsDir(n, x)
              && (n[x].mtime != p.source[x].mtime || n[x].size != p.source[x].size)
  {
    if x in p.source {
      assert Settled(p, n, x);
    }
  }

  /** Every operation of the second plan upserts a directory that is already there. */
  lemma SecondPlan(p: Problem, n: Nodes, s: seq<Record>, d: seq<Record>, op: Operation)
    requires Valid(p) && Synchronized(p, n) && WellFormed(n)
    requires SourceIndex(Again(p, n), s) && DestinationIndex(Again(p, n), d) && op in Planned(s, d)
    ensures op.UpsertDirectory? && IsDir(n, op.At()) && Changed(Again(p, n), op.At())
  {
    hide Planned, SourceIndex, DestinationIndex, Valid, Synchronized;
    AgainValid(p, n);
    var first := PlannedFrom(Again(p, n), s, d, op);
    OnlyDirectoriesDiffer(p, n, op.At());
  }

  /** No entry is added, removed or replaced: only the named directories' own metadata changes. */
  ghost predicate Quiet(m: Nodes, m': Nodes, named: set<Path>) {
    forall x :: if x in named then IsDir(m, x) && IsDir(m', x) && m'[x].size == m[x].size
                else Identical(m', m, x)
  }

  lemma QuietTransitive(a: Nodes, b: Nodes, c: Nodes, named: set<Path>)
    requires Quiet(a, b, named) && Quiet(b, c, named)
    ensures Quiet(a, c, named)
  {
  }

  /** The directories named are there. */
  ghost predicate AllDirs(n: Nodes, named: set<Path>) {
    forall x :: x in named ==> IsDir(n, x)
  }

  /** Only metadata of named directories waits on the stack. */
  ghost predicate Restamping(pending: seq<Directory>, named: set<Path>) {
    forall d :: d in pending ==> d.path in named && forall a :: a in d.actions ==> a.SetMetadata?
  }

  lemma {:induction false} QuietActions(fs: Fs, path: Path, actions: seq<Action>, named: set<Path>)
    requires AllDirs(fs.nodes, named) && path in named && forall a :: a in actions ==> a.SetMetadata?
    ensures Quiet(fs.nodes, PerformAll(fs, path, actions).value.nodes, named)
    decreases |actions|
  {
    if actions != [] {
      assert actions[0].SetMetadata?;
      var first := Perform(fs, path, actions[0]);
      assert Quiet(fs.nodes, first.value.nodes, named);
      if first.ok {
        QuietActions(first.value, path, actions[1..], named);
        QuietTransitive(fs.nodes, first.value.nodes, PerformAll(fs, path, actions).value.nodes, named);
      }
    }
  }

  lemma QuietFinish(st: State, named: set<Path>)
    requires st.pending != [] && AllDirs(st.fs.nodes, named) && Restamping(st.pending, named)
    ensures
      var done := FinishDirectory(st).value;
      Quiet(st.fs.nodes, done.fs.nodes, named) && Restamping(done.pending, named)
  {
    assert Top(st.pending) in st.pending;
    QuietActions(st.fs, Top(st.pending).path, Top(st.pending).actions, named);
  }

  lemma {:induction false} QuietClose(st: State, path: Path, named: set<Path>)
    requires AllDirs(st.fs.nodes, named) && Restamping(st.pending, named)
    ensures
      var done := CloseFor(st, path).value;
      Quiet(st.fs.nodes, done.fs.nodes, named) && Restamping(done.pending, named)
    decreases |st.pending|
  {
    if st.pending != [] && !AtOrAbove(Top(st.pending).path, path) {
      QuietFinish(st, named);
      var done := FinishDirectory(st);
      if done.ok {
        QuietClose(done.value, path, named);
        QuietTransitive(st.fs.nodes, done.value.fs.nodes, CloseFor(st, path).value.fs.nodes, named);
      }
    }
  }

  lemma {:induction false} QuietFinishAll(st: State, named: set<Path>)
    requires AllDirs(st.fs.nodes, named) && Restamping(st.pending, named)
    ensures Quiet(st.fs.nodes, Finish(st).value.fs.nodes, named)
    decreases |st.pending|
  {
    if st.pending != [] {
      QuietFinish(st, named);
      var done := FinishDirectory(st);
      if done.ok {
        QuietFinishAll(done.value, named);
        QuietTransitive(st.fs.nodes, done.value.fs.nodes, Finish(st).value.fs.nodes, named);
      }
    }
  }

  lemma DeferRestamps(pending: seq<Directory>, path: Path, metadata: Metadata, named: set<Path>)
    requires Restamping(pending, named) && path in named
    ensures Restamping(Defer(pending, path, SetMetadata(metadata)), named)
  {
  }

  lemma QuietApply(st: State, entry: Entry, named: set<Path>)
    requires AllDirs(st.fs.nodes, named) && Restamping(st.pending, named)
    requires entry.operation.UpsertDirectory? && entry.operation.At() in named
    ensures
      var done := Apply(st, entry).value;
      Quiet(st.fs.nodes, done.fs.nodes, named) && Restamping(done.pending, named)
  {
    var path, record := entry.operation.At(), entry.operation.record;
    QuietClose(st, path, named);
    var closed := CloseFor(st, path);
    if closed.ok {
      var made := MakeDirectory(closed.value.fs, path, record.metadata.mode);
      assert Quiet(closed.value.fs.nodes, made.value.nodes, named);
      QuietTransitive(st.fs.nodes, closed.value.fs.nodes, made.value.nodes, named);
      DeferRestamps(closed.value.pending, path, record.metadata, named);
    }
  }

  lemma {:induction false} QuietApplyAll(st: State, entries: seq<Entry>, named: set<Path>)
    requires AllDirs(st.fs.nodes, named) && Restamping(st.pending, named)
    requires forall e :: e in entries ==> e.operation.UpsertDirectory? && e.operation.At() in named
    ensures
      var done := ApplyAll(st, entries).value;
      Quiet(st.fs.nodes, done.fs.nodes, named) && Restamping(done.pending, named)
    decreases |entries|
  {
    if entries != [] {
      QuietApply(st, entries[0], named);
      var done := Apply(st, entries[0]);
      if done.ok {
        QuietApplyAll(done.value, entries[1..], named);
        QuietTransitive(st.fs.nodes, done.value.fs.nodes, ApplyAll(st, entries).value.fs.nodes, named);
      }
    }
  }

  /** A commit of directory upserts over existing directories changes no entry. */
  lemma QuietRun(fs: Fs, entries: seq<Entry>)
    requires forall e :: e in entries ==> e.operation.UpsertDirectory? && IsDir(fs.nodes, e.operation.At())
    ensures Quiet(fs.nodes, Run(fs, entries).value.fs.nodes, Named(entries))
  {
    var named := Named(entries);
    QuietApplyAll(Fresh(fs), entries, named);
    var done := ApplyAll(Fresh(fs), entries);
    if done.ok {
      QuietFinishAll(done.value, named);
      QuietTransitive(fs.nodes, done.value.fs.nodes, Run(fs, entries).value.fs.nodes, named);
    }
  }

  /** The entries of the second commit upsert exactly the directories that still differ. */
  lemma SecondEntries(p: Problem, n: Nodes, s: seq<Record>, d: seq<Record>)
    requires Valid(p) && Synchronized(p, n) && WellFormed(n)
    requires SourceIndex(Again(p, n), s) && DestinationIndex(Again(p, n), d)
    ensures
      var entries := StageAll(Again(p, n), Planned(s, d));
      && (forall e :: e in entries ==> e.operation.UpsertDirectory? && IsDir(n, e.operation.At()))
      && (forall e :: e in entries ==> Changed(Again(p, n), e.operation.At()))
  {
    var entries := StageAll(Again(p, n), Planned(s, d));
    forall e | e in entries
      ensures e.operation.UpsertDirectory? && IsDir(n, e.operation.At()) && Changed(Again(p, n), e.operation.At())
    {
      SecondPlan(p, n, s, d, e.operation);
    }
  }

  /** After the second commit every directory has the source's mode and time, and its old size. */
  lemma Restamped(p: Problem, n: Nodes, fs: Fs, s: seq<Record>, d: seq<Record>, x: Path)
    requires Valid(p) && Synchronized(p, n) && WellFormed(n) && fs.nodes == n
    requires SourceIndex(Again(p, n), s) && DestinationIndex(Again(p, n), d)
    ensures
      var done := Run(fs, StageAll(Again(p, n), Planned(s, d)));
      && done.ok && Synchronized(Again(p, n), done.value.fs.nodes) && WellFormed(done.value.fs.nodes)
      && (IsDir(p.source, x) ==>
            && IsDir(n, x) && IsDir(done.value.fs.nodes, x)
            && done.value.fs.nodes[x].mtime == p.source[x].mtime
            && done.value.fs.nodes[x].size == n[x].size)
  {
    var again := Again(p, n);
    var entries := StageAll(again, Planned(s, d));
    AgainValid(p, n);
    CommitSucceedsIff(again, fs, s, d);
    SecondEntries(p, n, s, d);
    QuietRun(fs, entries);
    var n' := Run(fs, entries).value.fs.nodes;
    OnlyDirectoriesDiffer(p, n, x);
    assert Settled(again, n', x) || !Involved(again, x);
    if IsDir(p.source, x) {
      assert Settled(p, n, x);
      assert if x in Named(entries) then IsDir(n', x) && n'[x].size == n[x].size else Identical(n', n, x);
    }
  }

  /**
   * After a successful sync and a second one, the third plan contains an operation at `x` exactly
   * when `x` is a directory whose byte size differs between the two filesystems; where sizes agree
   * the third plan is empty.
   */
  lemma ThirdPlan(p: Problem, n: Nodes, fs: Fs, s: seq<Record>, d: seq<Record>, x: Path)
    requires Valid(p) && Synchronized(p, n) && WellFormed(n) && fs.nodes == n
    requires SourceIndex(Again(p, n), s) && DestinationIndex(Again(p, n), d)
    ensures
      var n' := Run(fs, StageAll(Again(p, n), Planned(s, d))).value.fs.nodes;
      Changed(Again(p, n'), x) <==> IsDir(p.source, x) && IsDir(n, x) && n[x].size != p.source[x].size
  {
    Restamped(p, n, fs, s, d, x);
    AgainValid(p, n);
    var n' := Run(fs, StageAll(Again(p, n), Planned(s, d))).value.fs.nodes;
    OnlyDirectoriesDiffer(Again(p, n), n', x);
  }

  /** Nothing is planned where nothing differs. */
  lemma NothingPlanned(p: Problem, s: seq<Record>, d: seq<Record>)
    requires Valid(p) && SourceIndex(p, s) && DestinationIndex(p, d) && forall x :: !Changed(p, x)
    ensures Planned(s, d) == [] && s == d
  {
    forall x ensures Lookup(s, 0, x) == Lookup(d, 0, x) {
      assert !Changed(p, x);
      IndexLookup(p, s, d, x);
    }
    IndexUnique(s, d);
    PlanEmptyIff(s, d);
  }

  /** With directory sizes left aside, the third plan is empty. */
  lemma ThirdPlanEmpty(p: Problem, n: Nodes, fs: Fs, s: seq<Record>, d: seq<Record>, s': seq<Record>, d': seq<Record>)
    requires Valid(p) && Synchronized(p, n) && WellFormed(n) && fs.nodes == n
    requires SourceIndex(Again(p, n), s) && DestinationIndex(Again(p, n), d)
    requires forall x :: IsDir(p.source, x) && IsDir(n, x) ==> n[x].size == p.source[x].size
    requires
      var n' := Run(fs, StageAll(Again(p, n), Planned(s, d))).value.fs.nodes;
      SourceIndex(Again(p, n'), s') && DestinationIndex(Again(p, n'), d')
    ensures Planned(s', d') == []
  {
    var n' := Run(fs, StageAll(Again(p, n), Planned(s, d))).value.fs.nodes;
    forall x ensures !Changed(Again(p, n'), x) { ThirdPlan(p, n, fs, s, d, x); }
    Restamped(p, n, fs, s, d, []);
    AgainValid(p, n);
    AgainValid(Again(p, n), n');
    NothingPlanned(Again(p, n'), s', d');
  }
}
