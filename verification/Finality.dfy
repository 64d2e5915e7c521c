/** What a finished directory holds is what the commit leaves there. */
module Finality {
  import opened Paths
  import opened Records
  import opened Tree
  import opened Commit
  import opened Frame
  import opened Journal

  /** Nothing at `x` or beneath it differs, not even a time or a size. */
  ghost predicate Kept(before: Nodes, after: Nodes, x: Path) {
    forall y :: AtOrAbove(x, y) && !Protected(y) ==> Identical(after, before, y)
  }

  lemma KeptTransitive(a: Nodes, b: Nodes, c: Nodes, x: Path)
    requires Kept(a, b, x) && Kept(b, c, x)
    ensures Kept(a, c, x)
  {
    forall y | AtOrAbove(x, y) && !Protected(y) ensures Identical(c, a, y) {
      assert Identical(c, b, y) && Identical(b, a, y);
    }
  }

  /** A step at `q` changes `q`, the time and size of its parent, and the staging directory's. */
  ghost predicate Near(before: Nodes, after: Nodes, q: Path) {
    forall y :: y != q && (q == [] || y != Parent(q)) && y != [QUICSYNC] ==> Identical(after, before, y)
  }

  lemma BeneathParent(x: Path, q: Path)
    requires q != [] && x != [] && AtOrAbove(x, Parent(q))
    ensures Ancestor(x, q)
  {
  }

  lemma NearKeeps(before: Nodes, after: Nodes, q: Path, x: Path)
    requires Near(before, after, q) && x != [] && !AtOrAbove(x, q)
    ensures Kept(before, after, x)
  {
    forall y | AtOrAbove(x, y) && !Protected(y) ensures Identical(after, before, y) {
      assert y != [QUICSYNC] by { assert [QUICSYNC][0] == QUICSYNC; }
      if q != [] && AtOrAbove(x, Parent(q)) { BeneathParent(x, q); }
    }
  }

  lemma UnlinkNear(fs: Fs, path: Path, directory: bool)
    ensures Near(fs.nodes, Unlink(fs, path, directory).value.nodes, path)
  {
  }

  lemma InstallNear(fs: Fs, file: Staged, path: Path, metadata: Metadata)
    ensures Near(fs.nodes, Install(fs, file, path, metadata).value.nodes, path)
  {
    if Install(fs, file, path, metadata).ok {
      var put := Put(fs, path, File(Permissions(metadata.mode), metadata.mtime, file));
      var after := Install(fs, file, path, metadata).value;
      forall y | y != path && y != Parent(path) && y != [QUICSYNC] ensures Identical(after.nodes, fs.nodes, y) {
        assert Identical(after.nodes, put.nodes, y) && Identical(put.nodes, fs.nodes, y);
      }
    }
  }

  lemma NearTransitive(a: Nodes, b: Nodes, c: Nodes, q: Path)
    requires Near(a, b, q) && Near(b, c, q)
    ensures Near(a, c, q)
  {
    forall y | y != q && (q == [] || y != Parent(q)) && y != [QUICSYNC] ensures Identical(c, a, y) {
      assert Identical(c, b, y) && Identical(b, a, y);
    }
  }

  lemma SymlinkNear(fs: Fs, record: Record)
    ensures Near(fs.nodes, Symlink(fs, record).value.nodes, record.path)
  {
    var path := record.path;
    if Linkable(record.target) && Resolves(fs.nodes, path) && !IsDir(fs.nodes, path) {
      var cleared := if path in fs.nodes then Remove(fs, path) else fs;
      if record.target.value != [] {
        var linked := Put(cleared, path, Link(record.target.value, fs.clock(fs.ticks).0));
        assert Near(fs.nodes, cleared.nodes, path) && Near(cleared.nodes, linked.nodes, path);
        NearTransitive(fs.nodes, cleared.nodes, linked.nodes, path);
        NearTransitive(fs.nodes, linked.nodes, Symlink(fs, record).value.nodes, path);
      }
    }
  }

  lemma MakeDirectoryNear(fs: Fs, path: Path, mode: nat)
    ensures Near(fs.nodes, MakeDirectory(fs, path, mode).value.nodes, path)
  {
    if Resolves(fs.nodes, path) {
      var (mtime, size) := fs.clock(fs.ticks);
      var made := if path in fs.nodes then fs else Put(fs, path, Dir(0x1c0, mtime, size));
      assert Near(fs.nodes, made.nodes, path);
      NearTransitive(fs.nodes, made.nodes, MakeDirectory(fs, path, mode).value.nodes, path);
    }
  }

  lemma SetDirectoryNear(fs: Fs, path: Path, metadata: Metadata)
    ensures Near(fs.nodes, SetDirectory(fs, path, metadata).value.nodes, path)
  {
  }

  lemma PerformNear(fs: Fs, path: Path, action: Action)
    requires OnTarget(action, path)
    ensures Near(fs.nodes, Perform(fs, path, action).value.nodes, path)
  {
    match action
    case RemoveDirectory => UnlinkNear(fs, path, true);
    case SetMetadata(metadata) => SetDirectoryNear(fs, path, metadata);
    case InstallFile(file, metadata) => InstallNear(fs, file, path, metadata);
    case MakeSymlink(record) => SymlinkNear(fs, record);
  }

  lemma ExecuteNear(st: State, entry: Entry)
    requires entry.operation.UpsertFile? <==> entry.file.Some?
    ensures Near(st.fs.nodes, Execute(st, entry).value.fs.nodes, entry.operation.At())
  {
    match entry.operation
    case Delete(_, path, _) => UnlinkNear(st.fs, path, false);
    case UpsertDirectory(_, record) => MakeDirectoryNear(st.fs, record.path, record.metadata.mode);
    case UpsertFile(_, record, _) => InstallNear(st.fs, entry.file.value, record.path, record.metadata);
    case UpsertSymlink(_, record) => SymlinkNear(st.fs, record);
  }

  lemma {:induction false} ActionsKeep(fs: Fs, path: Path, actions: seq<Action>, x: Path)
    requires x != [] && !AtOrAbove(x, path) && forall a :: a in actions ==> OnTarget(a, path)
    ensures Kept(fs.nodes, PerformAll(fs, path, actions).value.nodes, x)
    decreases |actions|
  {
    if actions != [] {
      var first := Perform(fs, path, actions[0]);
      PerformNear(fs, path, actions[0]);
      NearKeeps(fs.nodes, first.value.nodes, path, x);
      if first.ok {
        ActionsKeep(first.value, path, actions[1..], x);
        KeptTransitive(fs.nodes, first.value.nodes, PerformAll(fs, path, actions).value.nodes, x);
      }
    }
  }

  /** Deferred actions are never empty and each is about its directory. */
  ghost predicate Filled(pending: seq<Directory>) {
    StackOnTarget(pending) && forall d :: d in pending ==> d.actions != []
  }

  lemma {:induction false} SomeAction(fs: Fs, path: Path, actions: seq<Action>)
    requires actions != []
    ensures exists e :: e in ActionEvents(fs, path, actions) && e.path == path
  {
    var events := ActionEvents(fs, path, actions);
    assert events[0] in events;
  }

  lemma FinishKeeps(st: State, x: Path)
    requires st.pending != [] && Filled(st.pending) && x != [] && Avoids(x, FinishEvents(st))
    ensures Kept(st.fs.nodes, FinishDirectory(st).value.fs.nodes, x) && Filled(FinishDirectory(st).value.pending)
  {
    var top := Top(st.pending);
    assert top in st.pending;
    SomeAction(st.fs, top.path, top.actions);
    ActionsKeep(st.fs, top.path, top.actions, x);
  }

  lemma {:induction false} CloseKeeps(st: State, q: Path, x: Path)
    requires Filled(st.pending) && x != [] && Avoids(x, CloseEvents(st, q))
    ensures Kept(st.fs.nodes, CloseFor(st, q).value.fs.nodes, x) && Filled(CloseFor(st, q).value.pending)
    decreases |st.pending|
  {
    hide FinishEvents, PerformAll, Kept;
    if st.pending != [] && !AtOrAbove(Top(st.pending).path, q) {
      FinishKeeps(st, x);
      var done := FinishDirectory(st);
      if done.ok {
        CloseKeeps(done.value, q, x);
        KeptTransitive(st.fs.nodes, done.value.fs.nodes, CloseFor(st, q).value.fs.nodes, x);
      }
    } else {
      KeptSelf(st.fs.nodes, x);
    }
  }

  lemma KeptSelf(n: Nodes, x: Path)
    ensures Kept(n, n, x)
  {
  }

  lemma {:induction false} FinishAllKeeps(st: State, x: Path)
    requires Filled(st.pending) && x != [] && Avoids(x, FinishAllEvents(st))
    ensures Kept(st.fs.nodes, Finish(st).value.fs.nodes, x)
    decreases |st.pending|
  {
    hide FinishEvents, PerformAll, Kept;
    if st.pending != [] {
      FinishKeeps(st, x);
      var done := FinishDirectory(st);
      if done.ok {
        FinishAllKeeps(done.value, x);
        KeptTransitive(st.fs.nodes, done.value.fs.nodes, Finish(st).value.fs.nodes, x);
      }
    } else {
      KeptSelf(st.fs.nodes, x);
    }
  }

  lemma DeferFilled(pending: seq<Directory>, path: Path, action: Action)
    requires Filled(pending) && OnTarget(action, path)
    ensures Filled(Defer(pending, path, action))
  {
    var after := Defer(pending, path, action);
    forall d | d in after ensures d.actions != [] && forall a :: a in d.actions ==> OnTarget(a, d.path) {
      if d !in pending && pending != [] && Top(pending).path == path { assert Top(pending) in pending; }
    }
  }

  lemma ExecuteFilled(st: State, entry: Entry)
    requires Filled(st.pending) && (entry.operation.UpsertFile? <==> entry.file.Some?)
    ensures Filled(Execute(st, entry).value.pending)
  {
    match entry.operation
    case Delete(_, path, _) => DeferFilled(st.pending, path, RemoveDirectory);
    case UpsertDirectory(_, record) => DeferFilled(st.pending, record.path, SetMetadata(record.metadata));
    case UpsertFile(_, record, _) => DeferFilled(st.pending, record.path, InstallFile(entry.file.value, record.metadata));
    case UpsertSymlink(_, record) => DeferFilled(st.pending, record.path, MakeSymlink(record));
  }

  /** The operation after the closing it caused. */
  lemma ExecuteKeeps(st: State, entry: Entry, x: Path)
    requires Filled(st.pending) && x != [] && (entry.operation.UpsertFile? <==> entry.file.Some?)
    requires !AtOrAbove(x, entry.operation.At())
    ensures Kept(st.fs.nodes, Execute(st, entry).value.fs.nodes, x) && Filled(Execute(st, entry).value.pending)
  {
    hide Execute, Filled, Near, Kept;
    ExecuteFilled(st, entry);
    ExecuteNear(st, entry);
    NearKeeps(st.fs.nodes, Execute(st, entry).value.fs.nodes, entry.operation.At(), x);
  }

  lemma ApplyKeeps(st: State, entry: Entry, x: Path)
    requires Filled(st.pending) && x != [] && Avoids(x, ApplyEvents(st, entry))
    ensures Kept(st.fs.nodes, Apply(st, entry).value.fs.nodes, x) && Filled(Apply(st, entry).value.pending)
  {
    hide Execute, Filled, Kept, CloseFor, CloseEvents;
    if Declined(st, entry) {
      KeptSelf(st.fs.nodes, x);
    } else {
      var q := entry.operation.At();
      var closed := CloseFor(st, q);
      CloseKeeps(st, q, x);
      if closed.ok {
        var settled := closed.value.(previous := Some(q));
        assert ExecuteEvent(settled, entry) in ApplyEvents(st, entry);
        ExecuteKeeps(settled, entry, x);
        KeptTransitive(st.fs.nodes, closed.value.fs.nodes, Apply(st, entry).value.fs.nodes, x);
      }
    }
  }

  /** A run whose events are all elsewhere leaves everything at and beneath `x` as it is. */
  lemma {:induction false} RunKeeps(st: State, entries: seq<Entry>, x: Path)
    requires Filled(st.pending) && x != [] && Avoids(x, RunEvents(st, entries))
    ensures Kept(st.fs.nodes, RunFrom(st, entries).value.fs.nodes, x)
    decreases |entries|
  {
    hide ApplyEvents, Apply, Filled, Kept, Finish, FinishAllEvents;
    if entries == [] {
      FinishAllKeeps(st, x);
    } else {
      var done := Apply(st, entries[0]);
      ApplyKeeps(st, entries[0], x);
      if done.ok {
        RunKeeps(done.value, entries[1..], x);
        KeptTransitive(st.fs.nodes, done.value.fs.nodes, RunFrom(st, entries).value.fs.nodes, x);
      }
    }
  }

  /** An event of this run: `x` finished with this tree, and everything after it in the journal. */
  ghost predicate FinishedThen(events: seq<Event>, i: nat, x: Path, tree: Nodes) {
    i < |events| && events[i] == Finished(x, tree) && Avoids(x, events[i + 1..])
  }

  lemma {:induction false} CloseTree(st: State, q: Path, i: nat, x: Path, tree: Nodes)
    requires Filled(st.pending) && x != [] && FinishedThen(CloseEvents(st, q), i, x, tree)
    ensures Kept(tree, CloseFor(st, q).value.fs.nodes, x) && Filled(CloseFor(st, q).value.pending)
    decreases |st.pending|
  {
    hide PerformAll, Kept, ActionEvents;
    var done := FinishDirectory(st);
    var first := FinishEvents(st);
    var rest := if done.ok then CloseEvents(done.value, q) else [];
    assert CloseEvents(st, q) == first + rest;
    StepTree(st, rest, i, x, tree);
    if i < |first| {
      CloseKeeps(done.value, q, x);
    } else {
      CloseTree(done.value, q, i - |first|, x, tree);
    }
  }

  /** A finished directory is the last event of its own finishing, or comes later. */
  lemma StepTree(st: State, rest: seq<Event>, i: nat, x: Path, tree: Nodes)
    requires st.pending != [] && Filled(st.pending) && FinishedThen(FinishEvents(st) + rest, i, x, tree)
    requires FinishDirectory(st).ok || rest == []
    ensures FinishDirectory(st).ok && Filled(Below(st.pending))
    ensures if i < |FinishEvents(st)| then tree == FinishDirectory(st).value.fs.nodes && Avoids(x, rest)
            else FinishedThen(rest, i - |FinishEvents(st)|, x, tree)
  {
    var top, first := Top(st.pending), FinishEvents(st);
    var actions := ActionEvents(st.fs, top.path, top.actions);
    ActionEventsAt(st.fs, top.path, top.actions);
    assert forall k :: 0 <= k < |actions| ==> actions[k] in actions && (first + rest)[k] == actions[k];
    if i < |first| {
      assert (first + rest)[i + 1..] == rest;
    } else {
      assert (first + rest)[i + 1..] == rest[i - |first| + 1..];
    }
  }

  lemma {:induction false} FinishAllTree(st: State, i: nat, x: Path, tree: Nodes)
    requires Filled(st.pending) && x != [] && FinishedThen(FinishAllEvents(st), i, x, tree)
    ensures Kept(tree, Finish(st).value.fs.nodes, x)
    decreases |st.pending|
  {
    hide PerformAll, Kept, ActionEvents;
    var done := FinishDirectory(st);
    var first := FinishEvents(st);
    var rest := if done.ok then FinishAllEvents(done.value) else [];
    assert FinishAllEvents(st) == first + rest;
    StepTree(st, rest, i, x, tree);
    if i < |first| {
      FinishAllKeeps(done.value, x);
    } else {
      FinishAllTree(done.value, i - |first|, x, tree);
    }
  }

  lemma {:induction false} RunTree(st: State, entries: seq<Entry>, i: nat, x: Path, tree: Nodes)
    requires Filled(st.pending) && x != [] && FinishedThen(RunEvents(st, entries), i, x, tree)
    ensures Kept(tree, RunFrom(st, entries).value.fs.nodes, x)
    decreases |entries|
  {
    hide Kept, Apply, Finish, FinishAllEvents, ApplyEvents, Filled;
    if entries == [] {
      FinishAllTree(st, i, x, tree);
    } else {
      var done := Apply(st, entries[0]);
      var first := ApplyEvents(st, entries[0]);
      var rest := if done.ok then RunEvents(done.value, entries[1..]) else [];
      assert RunEvents(st, entries) == first + rest;
      if i < |first| {
        assert (first + rest)[i + 1..] == first[i + 1..] + rest;
        SplitAvoids(x, first[i + 1..], rest);
        ApplyTree(st, entries[0], i, x, tree);
        if done.ok {
          RunKeeps(done.value, entries[1..], x);
          KeptTransitive(tree, done.value.fs.nodes, RunFrom(st, entries).value.fs.nodes, x);
        }
      } else {
        assert (first + rest)[i + 1..] == rest[i - |first| + 1..];
        ApplyFilled(st, entries[0]);
        RunTree(done.value, entries[1..], i - |first|, x, tree);
      }
    }
  }

  lemma SplitAvoids(x: Path, a: seq<Event>, b: seq<Event>)
    requires Avoids(x, a + b)
    ensures Avoids(x, a) && Avoids(x, b)
  {
    forall e | e in a ensures !AtOrAbove(x, e.path) { assert e in a + b; }
    forall e | e in b ensures !AtOrAbove(x, e.path) { assert e in a + b; }
  }

  lemma {:induction false} CloseFilled(st: State, q: Path)
    requires Filled(st.pending)
    ensures Filled(CloseFor(st, q).value.pending)
    decreases |st.pending|
  {
    if st.pending != [] && !AtOrAbove(Top(st.pending).path, q) && FinishDirectory(st).ok {
      CloseFilled(FinishDirectory(st).value, q);
    }
  }

  lemma ApplyFilled(st: State, entry: Entry)
    requires Filled(st.pending)
    ensures Filled(Apply(st, entry).value.pending)
  {
    hide Execute, Filled;
    var q := entry.operation.At();
    if !Declined(st, entry) {
      CloseFilled(st, q);
      if CloseFor(st, q).ok { ExecuteFilled(CloseFor(st, q).value.(previous := Some(q)), entry); }
    }
  }

  lemma ApplyTree(st: State, entry: Entry, i: nat, x: Path, tree: Nodes)
    requires Filled(st.pending) && x != [] && FinishedThen(ApplyEvents(st, entry), i, x, tree)
    ensures Kept(tree, Apply(st, entry).value.fs.nodes, x) && Filled(Apply(st, entry).value.pending)
  {
    hide Execute, Filled, Kept, CloseFor, CloseEvents;
    ApplyFilled(st, entry);
    var q := entry.operation.At();
    var closed, closing := CloseFor(st, q), CloseEvents(st, q);
    if closed.ok {
      var settled := closed.value.(previous := Some(q));
      var last := [ExecuteEvent(settled, entry)];
      assert ApplyEvents(st, entry) == closing + last;
      assert i < |closing|;
      assert (closing + last)[i + 1..] == closing[i + 1..] + last;
      SplitAvoids(x, closing[i + 1..], last);
      CloseTree(st, q, i, x, tree);
      assert last[0] in last;
      ExecuteKeeps(settled, entry, x);
      KeptTransitive(tree, closed.value.fs.nodes, Apply(st, entry).value.fs.nodes, x);
    } else {
      assert ApplyEvents(st, entry) == closing;
      CloseTree(st, q, i, x, tree);
    }
  }

  /**
   * Directory metadata is final. In every commit of any changes, successful or not, once the deferred
   * actions of a directory have run, the directory and everything beneath it stay exactly as they then
   * are, times and sizes included, up to the commit's last step.
   */
  lemma FinishedDirectoryIsFinal(fs: Fs, entries: seq<Entry>, i: nat, x: Path, tree: Nodes)
    requires Rooted(entries) && i < |JournalOf(fs, entries)| && JournalOf(fs, entries)[i] == Finished(x, tree)
    ensures Kept(tree, Run(fs, entries).value.fs.nodes, x)
  {
    hide RunEvents, Filled, Kept;
    var events := JournalOf(fs, entries);
    NeverEnteredAgain(fs, entries);
    forall e | e in events[i + 1..] ensures !AtOrAbove(x, e.path) {
      var j :| i < j < |events| && events[j] == e;
    }
    FinishedRooted(fs, entries, i);
    NothingFilled();
    RunTree(Fresh(fs), entries, i, x, tree);
  }

  lemma NothingFilled()
    ensures Filled([])
  {
  }

  /** Only directories of operations are ever finished. */
  lemma FinishedRooted(fs: Fs, entries: seq<Entry>, i: nat)
    requires Rooted(entries) && i < |JournalOf(fs, entries)|
    ensures JournalOf(fs, entries)[i].path != []
  {
    EventsRooted(Fresh(fs), entries);
    assert JournalOf(fs, entries)[i] in JournalOf(fs, entries);
  }

  lemma {:induction false} EventsRooted(st: State, entries: seq<Entry>)
    requires Current(st) && Rooted(entries)
    ensures forall e :: e in RunEvents(st, entries) ==> e.path != []
    decreases |entries|
  {
    if entries == [] {
      FinishAllSealed(st);
    } else {
      assert entries[0] in entries;
      CloseSealed(st, entries[0].operation.At());
      if Apply(st, entries[0]).ok {
        ApplyCurrent(st, entries[0]);
        EventsRooted(Apply(st, entries[0]).value, entries[1..]);
      }
    }
  }
}
