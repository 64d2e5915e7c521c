/**
 * When a commit must fail: an entry the plan does not know keeps a directory from being removed, or
 * stands where an entry of the source has to land.
 */
module Obstruction {
  import opened Paths
  import opened Records
  import opened Planner
  import opened PlanDiff
  import opened Tree
  import opened Commit
  import opened Frame
  import opened Reconciliation
  import opened Convergence

  /** `u` stands beneath `a` and no step of this run is about `u`. */
  ghost predicate Stands(fs: Fs, a: Path, u: Path, named: set<Path>) {
    WellFormed(fs.nodes) && u in fs.nodes && Ancestor(a, u) && u !in named
  }

  lemma StillStands(before: Fs, after: Fs, a: Path, u: Path, named: set<Path>)
    requires Stands(before, a, u, named) && Framed(before, after, named)
    ensures Stands(after, a, u, named)
  {
  }

  /** `rmdir` refuses a directory with anything beneath it. */
  lemma RemovalRefused(fs: Fs, a: Path, u: Path)
    requires WellFormed(fs.nodes) && u in fs.nodes && Ancestor(a, u)
    ensures !Unlink(fs, a, true).ok
  {
    ChildTowards(a, u);
  }

  /** Deferred actions that include the removal fail, whatever comes before it. */
  lemma {:induction false} ActionsFail(fs: Fs, a: Path, actions: seq<Action>, u: Path)
    requires RemoveDirectory in actions && (forall x :: x in actions ==> OnTarget(x, a))
    requires WellFormed(fs.nodes) && u in fs.nodes && Ancestor(a, u)
    ensures !PerformAll(fs, a, actions).ok
    decreases |actions|
  {
    if actions[0] == RemoveDirectory {
      RemovalRefused(fs, a, u);
    } else {
      PerformConfined(fs, a, actions[0]);
      var first := Perform(fs, a, actions[0]);
      if first.ok {
        assert Alike(first.value.nodes, fs.nodes, u);
        ActionsFail(first.value, a, actions[1..], u);
      }
    }
  }

  /** The removal of `a` is waiting on the stack. */
  ghost predicate Waiting(pending: seq<Directory>, a: Path) {
    exists d :: d in pending && d.path == a && RemoveDirectory in d.actions
  }

  /** Finishing the innermost directory either fails or leaves the removal waiting. */
  lemma FinishBlocked(st: State, a: Path, u: Path, named: set<Path>)
    requires st.pending != [] && Stacked(st.pending, named)
    requires Stands(st.fs, a, u, named) && Waiting(st.pending, a)
    ensures FinishDirectory(st).ok ==> Waiting(Below(st.pending), a)
  {
    var d :| d in st.pending && d.path == a && RemoveDirectory in d.actions;
    if d == Top(st.pending) {
      ActionsFail(st.fs, a, d.actions, u);
    } else {
      assert st.pending == Below(st.pending) + [Top(st.pending)];
    }
  }

  lemma {:induction false} CloseBlocked(st: State, path: Path, a: Path, u: Path, named: set<Path>)
    requires Stacked(st.pending, named) && Stands(st.fs, a, u, named) && Waiting(st.pending, a)
    ensures CloseFor(st, path).ok ==> Waiting(CloseFor(st, path).value.pending, a)
    decreases |st.pending|
  {
    if st.pending != [] && !AtOrAbove(Top(st.pending).path, path) {
      FinishBlocked(st, a, u, named);
      FinishDirectoryFramed(st, named);
      var done := FinishDirectory(st);
      if done.ok {
        StillStands(st.fs, done.value.fs, a, u, named);
        CloseBlocked(done.value, path, a, u, named);
      }
    }
  }

  lemma {:induction false} FinishAllBlocked(st: State, a: Path, u: Path, named: set<Path>)
    requires Stacked(st.pending, named) && Stands(st.fs, a, u, named) && Waiting(st.pending, a)
    ensures !Finish(st).ok
    decreases |st.pending|
  {
    FinishBlocked(st, a, u, named);
    FinishDirectoryFramed(st, named);
    var done := FinishDirectory(st);
    if done.ok {
      StillStands(st.fs, done.value.fs, a, u, named);
      FinishAllBlocked(done.value, a, u, named);
    }
  }

  lemma DeferKeepsWaiting(pending: seq<Directory>, path: Path, action: Action, a: Path)
    requires Waiting(pending, a)
    ensures Waiting(Defer(pending, path, action), a)
  {
  }

  lemma DeferWaits(pending: seq<Directory>, a: Path)
    ensures Waiting(Defer(pending, a, RemoveDirectory), a)
  {
  }

  /** The operation that asks for the removal. */
  predicate Asks(entry: Entry, a: Path) {
    entry.operation.Delete? && entry.operation.path == a && entry.operation.expectedKind.DirectoryKind?
  }

  lemma ExecuteWaits(st: State, entry: Entry, a: Path)
    requires entry.operation.UpsertFile? <==> entry.file.Some?
    requires Waiting(st.pending, a) || Asks(entry, a)
    ensures Execute(st, entry).ok ==> Waiting(Execute(st, entry).value.pending, a)
  {
    if Asks(entry, a) {
      DeferWaits(st.pending, a);
    } else {
      match entry.operation
      case Delete(_, path, _) => DeferKeepsWaiting(st.pending, path, RemoveDirectory, a);
      case UpsertDirectory(_, record) =>
        DeferKeepsWaiting(st.pending, record.path, SetMetadata(record.metadata), a);
      case UpsertFile(_, record, _) =>
        DeferKeepsWaiting(st.pending, record.path, InstallFile(entry.file.value, record.metadata), a);
      case UpsertSymlink(_, record) =>
        DeferKeepsWaiting(st.pending, record.path, MakeSymlink(record), a);
    }
  }

  /** Applying an operation either fails or leaves the removal waiting. */
  lemma ApplyWaits(st: State, entry: Entry, a: Path, u: Path, named: set<Path>)
    requires Stacked(st.pending, named) && Stands(st.fs, a, u, named)
    requires Waiting(st.pending, a) || Asks(entry, a)
    ensures Apply(st, entry).ok ==> Waiting(Apply(st, entry).value.pending, a)
  {
    var path := entry.operation.At();
    var closed := CloseFor(st, path);
    if Waiting(st.pending, a) { CloseBlocked(st, path, a, u, named); }
    if closed.ok && (entry.operation.UpsertFile? <==> entry.file.Some?) {
      ExecuteWaits(closed.value.(previous := Some(path)), entry, a);
    }
  }

  /** A run that has asked, or will ask, for the removal cannot succeed. */
  lemma {:induction false} RunBlocked(st: State, entries: seq<Entry>, a: Path, u: Path, named: set<Path>)
    requires Stacked(st.pending, named) && Stands(st.fs, a, u, named) && Named(entries) <= named
    requires Waiting(st.pending, a) || exists e :: e in entries && Asks(e, a)
    ensures ApplyAll(st, entries).ok ==> !Finish(ApplyAll(st, entries).value).ok
    decreases |entries|
  {
    if entries == [] {
      FinishAllBlocked(st, a, u, named);
    } else {
      assert entries[0].operation.At() in Named(entries);
      assert Named(entries[1..]) <= named;
      ApplyFramed(st, entries[0], named);
      var done := Apply(st, entries[0]);
      if done.ok {
        StillStands(st.fs, done.value.fs, a, u, named);
        if Waiting(st.pending, a) || Asks(entries[0], a) {
          ApplyWaits(st, entries[0], a, u, named);
        }
        RunBlocked(done.value, entries[1..], a, u, named);
      }
    }
  }

  lemma {:induction false} AtPathMember(ops: seq<Operation>, x: Path, op: Operation)
    requires op in AtPath(ops, x)
    ensures op in ops
  {
    if ops[0] != op { AtPathMember(ops[1..], x, op); }
  }

  lemma {:induction false} MemberAtPath(ops: seq<Operation>, op: Operation)
    requires op in ops
    ensures op in AtPath(ops, op.At())
  {
    if ops[0] != op { MemberAtPath(ops[1..], op); }
  }

  lemma {:induction false} LookupListed(s: seq<Record>, i: nat, x: Path)
    requires i <= |s|
    ensures Lookup(s, i, x).Some? <==> x in PathsFrom(s, i)
    ensures Lookup(s, i, x).Some? ==> exists k :: i <= k < |s| && s[k] == Lookup(s, i, x).value && s[k].path == x
    decreases |s| - i
  {
    if i < |s| {
      LookupListed(s, i + 1, x);
      PathsStep(s, i);
    }
  }

  /** Looking up both indexes gives the wanted and the present record. */
  lemma IndexLookup(p: Problem, s: seq<Record>, d: seq<Record>, x: Path)
    requires Valid(p) && SourceIndex(p, s) && DestinationIndex(p, d)
    ensures Lookup(s, 0, x) == Wanted(p, x) && Lookup(d, 0, x) == Present(p, x)
  {
    LookupListed(s, 0, x);
    LookupListed(d, 0, x);
  }

  /** Every planned operation is part of the difference at its own path. */
  lemma PlannedFrom(p: Problem, s: seq<Record>, d: seq<Record>, op: Operation) returns (first: nat)
    requires Valid(p) && SourceIndex(p, s) && DestinationIndex(p, d) && op in Planned(s, d)
    ensures op in OpsFor(Wanted(p, op.At()), Present(p, op.At()), first)
  {
    MemberAtPath(Planned(s, d), op);
    first := PlanIsDiff(s, d, 0, 0, 0, op.At());
    IndexLookup(p, s, d, op.At());
  }

  /** Every planned operation concerns an involved path whose entries differ. */
  lemma PlanInvolved(p: Problem, s: seq<Record>, d: seq<Record>, e: Entry)
    requires Valid(p) && SourceIndex(p, s) && DestinationIndex(p, d) && e in StageAll(p, Planned(s, d))
    ensures Involved(p, e.operation.At()) && Changed(p, e.operation.At())
  {
    var first := PlannedFrom(p, s, d, e.operation);
  }

  /** The plan asks for the removal of every directory that has to go. */
  lemma PlanAsks(p: Problem, s: seq<Record>, d: seq<Record>, a: Path)
    requires Valid(p) && SourceIndex(p, s) && DestinationIndex(p, d) && GoneDir(p, a)
    ensures exists e :: e in StageAll(p, Planned(s, d)) && Asks(e, a)
  {
    hide MergeDiff, AtPath, Lookup, Sorted, WellFormed;
    var first := PlanIsDiff(s, d, 0, 0, 0, a);
    IndexLookup(p, s, d, a);
    var op := Delete(first, a, DirectoryKind);
    assert OpsFor(Wanted(p, a), Present(p, a), first)[0] == op;
    assert op in AtPath(Planned(s, d), a);
    AtPathMember(Planned(s, d), a, op);
    var k :| 0 <= k < |Planned(s, d)| && Planned(s, d)[k] == op;
    var e := StageAll(p, Planned(s, d))[k];
    assert e == StagedAs(p, op) && Asks(e, a);
  }

  /** An unmanaged entry beneath a directory that has to go makes the commit fail. */
  lemma Obstructed(p: Problem, fs: Fs, s: seq<Record>, d: seq<Record>, a: Path, u: Path)
    requires Valid(p) && SourceIndex(p, s) && DestinationIndex(p, d) && fs.nodes == p.init
    requires Obstructs(p, a, u)
    ensures !Run(fs, StageAll(p, Planned(s, d))).ok
  {
    var entries := StageAll(p, Planned(s, d));
    assert u !in Named(entries) by {
      if e :| e in entries && e.operation.At() == u { PlanInvolved(p, s, d, e); }
    }
    PlanAsks(p, s, d, a);
    RunBlocked(Fresh(fs), entries, a, u, Named(entries));
  }

  /** `u` is occupied, by a directory or by something else, and nothing waits for `u`. */
  ghost predicate Occupied(st: State, u: Path, dir: bool, named: set<Path>) {
    && u in st.fs.nodes && st.fs.nodes[u].Dir? == dir
    && Stacked(st.pending, named) && u !in named
  }

  /** An upsert that would put a directory where none is, or something else where one is. */
  predicate Clashes(entry: Entry, dir: bool) {
    match entry.operation
    case Delete(_, _, _) => false
    case UpsertDirectory(_, _) => !dir
    case UpsertFile(_, _, _) => dir
    case UpsertSymlink(_, _) => dir
  }

  lemma FrameOccupied(st: State, st': State, u: Path, dir: bool, named: set<Path>)
    requires Occupied(st, u, dir, named) && Framed(st.fs, st'.fs, named) && Stacked(st'.pending, named)
    ensures Occupied(st', u, dir, named)
  {
    assert Alike(st'.fs.nodes, st.fs.nodes, u);
  }

  /** Nothing lands on an entry of the other sort. */
  lemma ClashFails(st: State, entry: Entry, u: Path, dir: bool, named: set<Path>)
    requires Occupied(st, u, dir, named) && entry.operation.At() == u && Clashes(entry, dir)
    ensures !Apply(st, entry).ok
  {
    CloseForFramed(st, u, named);
    var closed := CloseFor(st, u);
    FrameOccupied(st, closed.value, u, dir, named);
    assert !Replacing(closed.value.pending, u);
  }

  lemma {:induction false} RunClashes(st: State, entries: seq<Entry>, u: Path, dir: bool, named: set<Path>)
    requires Occupied(st, u, dir, named) && Named(entries) <= named + {u} && u in Named(entries)
    requires forall e :: e in entries && e.operation.At() == u ==> Clashes(e, dir)
    ensures !ApplyAll(st, entries).ok
    decreases |entries|
  {
    var first := entries[0];
    if first.operation.At() == u {
      ClashFails(st, first, u, dir, named);
    } else {
      assert first.operation.At() in Named(entries);
      ApplyFramed(st, first, named);
      var done := Apply(st, first);
      if done.ok {
        FrameOccupied(st, done.value, u, dir, named);
        RestNamed(entries, u);
        RunClashes(done.value, entries[1..], u, dir, named);
      }
    }
  }

  lemma RestNamed(entries: seq<Entry>, u: Path)
    requires entries != [] && u in Named(entries) && entries[0].operation.At() != u
    ensures u in Named(entries[1..]) && Named(entries[1..]) <= Named(entries)
  {
    var e :| e in entries && e.operation.At() == u;
    assert e in entries[1..];
  }

  /** An unmanaged entry in the way of the source's makes the commit fail. */
  lemma Collided(p: Problem, fs: Fs, s: seq<Record>, d: seq<Record>, u: Path)
    requires Valid(p) && SourceIndex(p, s) && DestinationIndex(p, d) && fs.nodes == p.init && Collides(p, u)
    ensures !Run(fs, StageAll(p, Planned(s, d))).ok
  {
    var entries := StageAll(p, Planned(s, d));
    forall e | e in entries && e.operation.At() == u ensures Clashes(e, p.init[u].Dir?) {
      var first := PlannedFrom(p, s, d, e.operation);
    }
    PlanUpserts(p, s, d, u);
    RunClashes(Fresh(fs), entries, u, p.init[u].Dir?, Named(entries) - {u});
  }

  /** The plan has an operation at every path where the indexes differ. */
  lemma PlanUpserts(p: Problem, s: seq<Record>, d: seq<Record>, x: Path)
    requires Valid(p) && SourceIndex(p, s) && DestinationIndex(p, d) && Changed(p, x)
    ensures x in Named(StageAll(p, Planned(s, d)))
  {
    hide MergeDiff, AtPath, Lookup, Sorted, WellFormed;
    var first := PlanIsDiff(s, d, 0, 0, 0, x);
    IndexLookup(p, s, d, x);
    var op := OpsFor(Wanted(p, x), Present(p, x), first)[0];
    assert op in AtPath(Planned(s, d), x);
    AtPathMember(Planned(s, d), x, op);
    var k :| 0 <= k < |Planned(s, d)| && Planned(s, d)[k] == op;
    var e := StageAll(p, Planned(s, d))[k];
    assert e.operation == op && op.At() == x;
  }

  /**
   * Exactly when a planned commit succeeds: no unmanaged entry stands beneath a directory that has
   * to go, and none stands where the source has a directory and it is none, or the other way round.
   */
  lemma CommitSucceedsIff(p: Problem, fs: Fs, s: seq<Record>, d: seq<Record>)
    requires Valid(p) && SourceIndex(p, s) && DestinationIndex(p, d) && fs.nodes == p.init
    ensures
      var done := Run(fs, StageAll(p, Planned(s, d)));
      && (done.ok <==> Clear(p))
      && (done.ok ==> Synchronized(p, done.value.fs.nodes))
      && WellFormed(done.value.fs.nodes)
      && (forall x :: !Involved(p, x) ==> Alike(done.value.fs.nodes, p.init, x))
  {
    var entries := StageAll(p, Planned(s, d));
    if Clear(p) {
      Converges(p, fs, s, d);
    } else if u :| Collides(p, u) {
      Collided(p, fs, s, d, u);
    } else {
      var a, u :| Obstructs(p, a, u);
      Obstructed(p, fs, s, d, a, u);
    }
    CommitFrame(fs, entries);
    forall x | !Involved(p, x) ensures x !in Named(entries) {
      if e :| e in entries && e.operation.At() == x { PlanInvolved(p, s, d, e); }
    }
  }
}
