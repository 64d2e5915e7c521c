/** A successful commit finishes every directory it deferred and installs every file it was given. */
module Complete {
  import opened Paths
  import opened Records
  import opened Tree
  import opened Commit
  import opened Planner
  import opened PlanDiff
  import opened Reconciliation
  import opened Convergence
  import opened Obstruction
  import opened Journal
  import opened Finality

  /** An open directory, or a file waiting to be installed at it. */
  ghost predicate Due(pending: seq<Directory>, x: Path, install: bool) {
    exists d :: d in pending && d.path == x && (install ==> Installs(d.actions))
  }

  predicate Installs(actions: seq<Action>) {
    exists k :: 0 <= k < |actions| && actions[k].InstallFile?
  }

  ghost predicate Reported(events: seq<Event>, x: Path, install: bool) {
    exists e :: e in events && e.path == x && (if install then e.Installed? else e.Finished?)
  }

  /** An operation that installs a file, or one that defers something about a directory. */
  predicate Calls(entry: Entry, x: Path, install: bool) {
    && entry.operation.At() == x
    && (if install then entry.operation.UpsertFile?
        else entry.operation.UpsertDirectory? || (entry.operation.Delete? && entry.operation.expectedKind.DirectoryKind?))
  }

  lemma ReportedIn(a: seq<Event>, b: seq<Event>, x: Path, install: bool)
    requires Reported(a, x, install) || Reported(b, x, install)
    ensures Reported(a + b, x, install)
  {
    var e :| (e in a || e in b) && e.path == x && (if install then e.Installed? else e.Finished?);
    assert e in a + b;
  }

  lemma {:induction false} ActionsReport(fs: Fs, path: Path, actions: seq<Action>)
    requires PerformAll(fs, path, actions).ok && Installs(actions)
    ensures Reported(ActionEvents(fs, path, actions), path, true)
    decreases |actions|
  {
    var events := ActionEvents(fs, path, actions);
    if actions[0].InstallFile? {
      assert events[0] in events;
    } else {
      var k :| 0 <= k < |actions| && actions[k].InstallFile?;
      assert actions[1..][k - 1].InstallFile?;
      ActionsReport(Perform(fs, path, actions[0]).value, path, actions[1..]);
      ReportedIn([events[0]], events[1..], path, true);
    }
  }

  lemma FinishReports(st: State, x: Path, install: bool)
    requires st.pending != [] && FinishDirectory(st).ok && Due(st.pending, x, install)
    ensures Reported(FinishEvents(st), x, install) || Due(Below(st.pending), x, install)
  {
    var d :| d in st.pending && d.path == x && (install ==> Installs(d.actions));
    var top := Top(st.pending);
    if d == top {
      var last := [Finished(top.path, FinishDirectory(st).value.fs.nodes)];
      if install {
        ActionsReport(st.fs, top.path, top.actions);
      } else {
        assert last[0] in last;
      }
      ReportedIn(ActionEvents(st.fs, top.path, top.actions), last, x, install);
    } else {
      assert st.pending == Below(st.pending) + [top];
    }
  }

  lemma {:induction false} CloseReports(st: State, q: Path, x: Path, install: bool)
    requires CloseFor(st, q).ok && Due(st.pending, x, install)
    ensures Reported(CloseEvents(st, q), x, install) || Due(CloseFor(st, q).value.pending, x, install)
    decreases |st.pending|
  {
    hide FinishEvents, Due, Reported, PerformAll;
    if st.pending != [] && !AtOrAbove(Top(st.pending).path, q) {
      FinishReports(st, x, install);
      var done := FinishDirectory(st).value;
      if Due(done.pending, x, install) { CloseReports(done, q, x, install); }
      if Reported(FinishEvents(st), x, install) || Reported(CloseEvents(done, q), x, install) {
        ReportedIn(FinishEvents(st), CloseEvents(done, q), x, install);
      }
    }
  }

  lemma {:induction false} FinishAllReports(st: State, x: Path, install: bool)
    requires Finish(st).ok && Due(st.pending, x, install)
    ensures Reported(FinishAllEvents(st), x, install)
    decreases |st.pending|
  {
    hide FinishEvents, Reported, PerformAll;
    FinishReports(st, x, install);
    var done := FinishDirectory(st).value;
    if Due(done.pending, x, install) { FinishAllReports(done, x, install); }
    ReportedIn(FinishEvents(st), FinishAllEvents(done), x, install);
  }

  lemma DeferAdds(pending: seq<Directory>, q: Path, action: Action, x: Path, install: bool)
    requires Due(pending, x, install) || (q == x && (install ==> action.InstallFile?))
    ensures Due(Defer(pending, q, action), x, install)
  {
    var after := Defer(pending, q, action);
    var last := after[|after| - 1];
    assert last in after && last.path == q && last.actions[|last.actions| - 1] == action;
    if Due(pending, x, install) {
      var d :| d in pending && d.path == x && (install ==> Installs(d.actions));
      if d !in after {
        assert d == Top(pending) && last.actions == d.actions + [action];
        if install {
          var k :| 0 <= k < |d.actions| && d.actions[k].InstallFile?;
          assert last.actions[k].InstallFile?;
        }
      }
    }
  }

  lemma ExecuteReports(st: State, entry: Entry, x: Path, install: bool)
    requires (entry.operation.UpsertFile? <==> entry.file.Some?) && Execute(st, entry).ok
    requires Due(st.pending, x, install) || Calls(entry, x, install)
    ensures Reported([ExecuteEvent(st, entry)], x, install) || Due(Execute(st, entry).value.pending, x, install)
  {
    hide Unlink, Install, Symlink, MakeDirectory, Due;
    var q := entry.operation.At();
    match entry.operation
    case Delete(_, _, kind) =>
      if kind.DirectoryKind? { DeferAdds(st.pending, q, RemoveDirectory, x, install); }
    case UpsertDirectory(_, record) => DeferAdds(st.pending, q, SetMetadata(record.metadata), x, install);
    case UpsertFile(_, record, _) =>
      if Replacing(st.pending, q) {
        DeferAdds(st.pending, q, InstallFile(entry.file.value, record.metadata), x, install);
      } else {
        assert [ExecuteEvent(st, entry)][0] == Installed(q);
      }
    case UpsertSymlink(_, record) =>
      if Replacing(st.pending, q) { DeferAdds(st.pending, q, MakeSymlink(record), x, install); }
  }

  lemma ApplyReports(st: State, entry: Entry, x: Path, install: bool)
    requires Apply(st, entry).ok && (Due(st.pending, x, install) || Calls(entry, x, install))
    ensures Reported(ApplyEvents(st, entry), x, install) || Due(Apply(st, entry).value.pending, x, install)
  {
    hide Execute, Due, Reported, CloseFor, CloseEvents;
    var q := entry.operation.At();
    var closed := CloseFor(st, q);
    var settled := closed.value.(previous := Some(q));
    if Due(st.pending, x, install) { CloseReports(st, q, x, install); }
    if Due(settled.pending, x, install) || Calls(entry, x, install) { ExecuteReports(settled, entry, x, install); }
    if Reported(CloseEvents(st, q), x, install) || Reported([ExecuteEvent(settled, entry)], x, install) {
      ReportedIn(CloseEvents(st, q), [ExecuteEvent(settled, entry)], x, install);
    }
  }

  lemma {:induction false} RunReports(st: State, entries: seq<Entry>, x: Path, install: bool)
    requires RunFrom(st, entries).ok
    requires Due(st.pending, x, install) || exists k :: 0 <= k < |entries| && Calls(entries[k], x, install)
    ensures Reported(RunEvents(st, entries), x, install)
    decreases |entries|
  {
    hide Due, Reported, ApplyEvents, FinishAllEvents, Finish, Apply, Calls;
    if entries == [] {
      FinishAllReports(st, x, install);
    } else {
      var done := Apply(st, entries[0]).value;
      var first, rest := ApplyEvents(st, entries[0]), RunEvents(done, entries[1..]);
      if Due(st.pending, x, install) || Calls(entries[0], x, install) {
        ApplyReports(st, entries[0], x, install);
      } else {
        var k :| 0 <= k < |entries| && Calls(entries[k], x, install);
        assert entries[1..][k - 1] == entries[k];
      }
      if !Reported(first, x, install) { RunReports(done, entries[1..], x, install); }
      ReportedIn(first, rest, x, install);
    }
  }

  /** Every file is installed and every deferred directory finished when a commit succeeds. */
  lemma EverythingDone(fs: Fs, entries: seq<Entry>, entry: Entry)
    requires Run(fs, entries).ok && entry in entries
    ensures entry.operation.UpsertFile? ==> Reported(JournalOf(fs, entries), entry.operation.At(), true)
    ensures Calls(entry, entry.operation.At(), false) ==> Reported(JournalOf(fs, entries), entry.operation.At(), false)
  {
    hide RunEvents, Reported;
    var x := entry.operation.At();
    var k :| 0 <= k < |entries| && entries[k] == entry;
    if entry.operation.UpsertFile? {
      assert Calls(entries[k], x, true);
      RunReports(Fresh(fs), entries, x, true);
    }
    if Calls(entries[k], x, false) { RunReports(Fresh(fs), entries, x, false); }
  }

  /** The plan upserts every directory that is new or changed. */
  lemma PlanMakes(p: Problem, s: seq<Record>, d: seq<Record>, x: Path) returns (entry: Entry)
    requires Valid(p) && SourceIndex(p, s) && DestinationIndex(p, d) && MadeDir(p, x)
    ensures entry in StageAll(p, Planned(s, d)) && entry.operation.UpsertDirectory? && entry.operation.At() == x
  {
    hide MergeDiff, AtPath, Lookup, Sorted, WellFormed;
    var first := PlanIsDiff(s, d, 0, 0, 0, x);
    IndexLookup(p, s, d, x);
    var ops := OpsFor(Wanted(p, x), Present(p, x), first);
    var op := ops[|ops| - 1];
    assert op in AtPath(Planned(s, d), x);
    AtPathMember(Planned(s, d), x, op);
    var k :| 0 <= k < |Planned(s, d)| && Planned(s, d)[k] == op;
    entry := StageAll(p, Planned(s, d))[k];
  }

  /**
   * In every successful commit of a plan, each new or changed directory gets the source's mode and
   * time when its deferred actions run, and from then on nothing at it or beneath it changes.
   */
  lemma PlannedDirectoryFinal(p: Problem, fs: Fs, s: seq<Record>, d: seq<Record>, x: Path) returns (i: nat)
    requires Valid(p) && Clear(p) && SourceIndex(p, s) && DestinationIndex(p, d) && fs.nodes == p.init
    requires MadeDir(p, x)
    ensures
      var entries := StageAll(p, Planned(s, d));
      && i < |JournalOf(fs, entries)| && JournalOf(fs, entries)[i].Finished? && JournalOf(fs, entries)[i].path == x
      && (var tree := JournalOf(fs, entries)[i].tree;
          && x in tree && SameButSize(tree[x], p.source[x])
          && Kept(tree, Run(fs, entries).value.fs.nodes, x))
  {
    hide Planned, StageAll, RunEvents, Run, Clear, SourceIndex, DestinationIndex, WellFormed;
    var entries := StageAll(p, Planned(s, d));
    CommitSucceedsIff(p, fs, s, d);
    var entry := PlanMakes(p, s, d, x);
    EverythingDone(fs, entries, entry);
    var e :| e in JournalOf(fs, entries) && e.path == x && e.Finished?;
    i :| 0 <= i < |JournalOf(fs, entries)| && JournalOf(fs, entries)[i] == e;
    PlannedRooted(p, s, d);
    FinishedDirectoryIsFinal(fs, entries, i, x, e.tree);
    assert Settled(p, Run(fs, entries).value.fs.nodes, x);
    assert Identical(Run(fs, entries).value.fs.nodes, e.tree, x);
  }

  lemma PlannedRooted(p: Problem, s: seq<Record>, d: seq<Record>)
    requires Valid(p) && SourceIndex(p, s) && DestinationIndex(p, d)
    ensures Rooted(StageAll(p, Planned(s, d)))
  {
    hide Planned;
    forall e | e in StageAll(p, Planned(s, d)) ensures e.operation.At() != [] { PlanInvolved(p, s, d, e); }
  }
}
