/**
 * What every commit keeps, whatever operations it is given and wherever it stops: the tree stays
 * well formed, and an entry that no operation names keeps its kind, content, target and mode, as
 * does everything under a protected component.
 */
module Frame {
  import opened Paths
  import opened Records
  import opened Tree
  import opened Commit

  lemma AlikeTransitive(m: Nodes, m': Nodes, m'': Nodes, x: Path)
    requires Alike(m, m', x) && Alike(m', m'', x)
    ensures Alike(m, m'', x)
  {
  }

  lemma WellFormedPut(fs: Fs, x: Path, node: Node)
    requires WellFormed(fs.nodes) && Resolves(fs.nodes, x) && (node.Dir? || !IsDir(fs.nodes, x))
    ensures WellFormed(Put(fs, x, node).nodes)
  {
  }

  lemma WellFormedRemove(fs: Fs, x: Path)
    requires WellFormed(fs.nodes) && x != [] && (IsDir(fs.nodes, x) ==> Empty(fs.nodes, x))
    ensures WellFormed(Remove(fs, x).nodes)
  {
    var after := Remove(fs, x).nodes;
    forall a, y | y in after && Ancestor(a, y) ensures IsDir(after, a) {
      assert Alike(after, fs.nodes, y);
      if a == x {
        ChildTowards(x, y);
        assert false;
      }
      assert Alike(after, fs.nodes, a);
    }
    assert Alike(after, fs.nodes, []);
  }

  lemma WellFormedAmend(fs: Fs, x: Path, node: Node)
    requires WellFormed(fs.nodes) && x in fs.nodes && node.Dir? == fs.nodes[x].Dir?
    ensures WellFormed(Amend(fs, x, node).nodes)
  {
  }

  /** A step that works on `path` and nothing else. */
  ghost predicate Confined(before: Fs, after: Fs, path: Path) {
    && (WellFormed(before.nodes) ==> WellFormed(after.nodes))
    && forall x :: x != path || Protected(x) ==> Alike(after.nodes, before.nodes, x)
  }

  lemma UnlinkConfined(fs: Fs, path: Path, directory: bool)
    ensures Confined(fs, Unlink(fs, path, directory).value, path)
  {
    if Unlink(fs, path, directory).ok && WellFormed(fs.nodes) {
      WellFormedRemove(fs, path);
    }
  }

  lemma InstallConfined(fs: Fs, file: Staged, path: Path, metadata: Metadata)
    ensures Confined(fs, Install(fs, file, path, metadata).value, path)
  {
  }

  lemma SymlinkConfined(fs: Fs, record: Record)
    ensures Confined(fs, Symlink(fs, record).value, record.path)
  {
    var path := record.path;
    if Linkable(record.target) && Resolves(fs.nodes, path) && !IsDir(fs.nodes, path) {
      var cleared := if path in fs.nodes then Remove(fs, path) else fs;
      assert Confined(fs, cleared, path) by {
        if path in fs.nodes && WellFormed(fs.nodes) { WellFormedRemove(fs, path); }
      }
      if record.target.value != [] {
        LinkConfined(fs, cleared, record);
      }
    }
  }

  /** The second half of `symlink`, after the old entry is gone. */
  lemma LinkConfined(fs: Fs, cleared: Fs, record: Record)
    requires Confined(fs, cleared, record.path) && record.path !in cleared.nodes
    requires Resolves(fs.nodes, record.path) && record.target.Some?
    ensures
      var linked := Put(cleared, record.path, Link(record.target.value, fs.clock(fs.ticks).0));
      var stamped := Amend(linked, record.path, Link(record.target.value, record.metadata.mtime));
      Confined(fs, linked, record.path) && Confined(fs, stamped, record.path)
  {
    var path := record.path;
    var linked := Put(cleared, path, Link(record.target.value, fs.clock(fs.ticks).0));
    var stamped := Amend(linked, path, Link(record.target.value, record.metadata.mtime));
    forall a | Ancestor(a, path) ensures IsDir(cleared.nodes, a) {
      assert Alike(cleared.nodes, fs.nodes, a);
    }
    if WellFormed(fs.nodes) {
      WellFormedPut(cleared, path, Link(record.target.value, fs.clock(fs.ticks).0));
      WellFormedAmend(linked, path, Link(record.target.value, record.metadata.mtime));
    }
    forall x | x != path || Protected(x)
      ensures Alike(linked.nodes, fs.nodes, x) && Alike(stamped.nodes, fs.nodes, x)
    {
      AlikeTransitive(linked.nodes, cleared.nodes, fs.nodes, x);
      assert Identical(stamped.nodes, linked.nodes, x);
    }
  }

  lemma MakeDirectoryConfined(fs: Fs, path: Path, mode: nat)
    ensures Confined(fs, MakeDirectory(fs, path, mode).value, path)
  {
    if Resolves(fs.nodes, path) {
      var (mtime, size) := fs.clock(fs.ticks);
      var made := if path in fs.nodes then fs else Put(fs, path, Dir(0x1c0, mtime, size));
      if WellFormed(fs.nodes) {
        if path !in fs.nodes { WellFormedPut(fs, path, Dir(0x1c0, mtime, size)); }
        if made.nodes[path].Dir? {
          WellFormedAmend(made, path, Dir(Permissions(WithOwnerAccess(mode)), made.nodes[path].mtime, made.nodes[path].size));
        }
      }
      forall x | x != path || Protected(x)
        ensures Alike(MakeDirectory(fs, path, mode).value.nodes, fs.nodes, x)
      {
        assert Alike(made.nodes, fs.nodes, x);
        assert Identical(MakeDirectory(fs, path, mode).value.nodes, made.nodes, x);
      }
    }
  }

  lemma SetDirectoryConfined(fs: Fs, path: Path, metadata: Metadata)
    ensures Confined(fs, SetDirectory(fs, path, metadata).value, path)
  {
  }

  /** A deferred link is always the link of the directory entry it waits for. */
  predicate OnTarget(action: Action, path: Path) {
    action.MakeSymlink? ==> action.record.path == path
  }

  predicate StackOnTarget(pending: seq<Directory>) {
    forall d, a :: d in pending && a in d.actions ==> OnTarget(a, d.path)
  }

  lemma PerformConfined(fs: Fs, path: Path, action: Action)
    requires OnTarget(action, path)
    ensures Confined(fs, Perform(fs, path, action).value, path)
  {
    match action
    case RemoveDirectory => UnlinkConfined(fs, path, true);
    case SetMetadata(metadata) => SetDirectoryConfined(fs, path, metadata);
    case InstallFile(file, metadata) => InstallConfined(fs, file, path, metadata);
    case MakeSymlink(record) => SymlinkConfined(fs, record);
  }

  lemma ConfinedTransitive(a: Fs, b: Fs, c: Fs, path: Path)
    requires Confined(a, b, path) && Confined(b, c, path)
    ensures Confined(a, c, path)
  {
  }

  lemma {:induction false} PerformAllConfined(fs: Fs, path: Path, actions: seq<Action>)
    requires forall a :: a in actions ==> OnTarget(a, path)
    ensures Confined(fs, PerformAll(fs, path, actions).value, path)
    decreases |actions|
  {
    if actions != [] {
      PerformConfined(fs, path, actions[0]);
      var first := Perform(fs, path, actions[0]);
      if first.ok {
        PerformAllConfined(first.value, path, actions[1..]);
        ConfinedTransitive(fs, first.value, PerformAll(fs, path, actions).value, path);
      }
    }
  }

  /** Nothing changes but the paths in `named`, and nothing protected changes at all. */
  ghost predicate Framed(before: Fs, after: Fs, named: set<Path>) {
    && (WellFormed(before.nodes) ==> WellFormed(after.nodes))
    && forall x :: x !in named || Protected(x) ==> Alike(after.nodes, before.nodes, x)
  }

  lemma FramedTransitive(a: Fs, b: Fs, c: Fs, named: set<Path>)
    requires Framed(a, b, named) && Framed(b, c, named)
    ensures Framed(a, c, named)
  {
  }

  /** The stack only ever waits on named paths. */
  ghost predicate Stacked(pending: seq<Directory>, named: set<Path>) {
    StackOnTarget(pending) && forall d :: d in pending ==> d.path in named
  }

  lemma FinishDirectoryFramed(st: State, named: set<Path>)
    requires st.pending != [] && Stacked(st.pending, named)
    ensures
      var done := FinishDirectory(st).value;
      Framed(st.fs, done.fs, named) && Stacked(done.pending, named)
  {
    var top := Top(st.pending);
    assert top in st.pending;
    PerformAllConfined(st.fs, top.path, top.actions);
  }

  lemma {:induction false} CloseForFramed(st: State, path: Path, named: set<Path>)
    requires Stacked(st.pending, named)
    ensures
      var done := CloseFor(st, path).value;
      Framed(st.fs, done.fs, named) && Stacked(done.pending, named)
    decreases |st.pending|
  {
    if st.pending != [] && !AtOrAbove(Top(st.pending).path, path) {
      FinishDirectoryFramed(st, named);
      var done := FinishDirectory(st);
      if done.ok {
        CloseForFramed(done.value, path, named);
        FramedTransitive(st.fs, done.value.fs, CloseFor(st, path).value.fs, named);
      }
    }
  }

  lemma {:induction false} FinishFramed(st: State, named: set<Path>)
    requires Stacked(st.pending, named)
    ensures Framed(st.fs, Finish(st).value.fs, named)
    decreases |st.pending|
  {
    if st.pending != [] {
      FinishDirectoryFramed(st, named);
      var done := FinishDirectory(st);
      if done.ok {
        FinishFramed(done.value, named);
        FramedTransitive(st.fs, done.value.fs, Finish(st).value.fs, named);
      }
    }
  }

  lemma DeferStacked(pending: seq<Directory>, path: Path, action: Action, named: set<Path>)
    requires Stacked(pending, named) && path in named && OnTarget(action, path)
    ensures Stacked(Defer(pending, path, action), named)
  {
  }

  lemma ExecuteFramed(st: State, entry: Entry, named: set<Path>)
    requires Stacked(st.pending, named) && entry.operation.At() in named
    requires entry.operation.UpsertFile? <==> entry.file.Some?
    ensures
      var done := Execute(st, entry).value;
      Framed(st.fs, done.fs, named) && Stacked(done.pending, named)
  {
    match entry.operation
    case Delete(_, path, kind) =>
      DeferStacked(st.pending, path, RemoveDirectory, named);
      UnlinkConfined(st.fs, path, false);
    case UpsertDirectory(_, record) =>
      MakeDirectoryConfined(st.fs, record.path, record.metadata.mode);
      DeferStacked(st.pending, record.path, SetMetadata(record.metadata), named);
    case UpsertFile(_, record, _) =>
      DeferStacked(st.pending, record.path, InstallFile(entry.file.value, record.metadata), named);
      InstallConfined(st.fs, entry.file.value, record.path, record.metadata);
    case UpsertSymlink(_, record) =>
      DeferStacked(st.pending, record.path, MakeSymlink(record), named);
      SymlinkConfined(st.fs, record);
  }

  lemma ApplyFramed(st: State, entry: Entry, named: set<Path>)
    requires Stacked(st.pending, named) && entry.operation.At() in named
    ensures
      var done := Apply(st, entry).value;
      Framed(st.fs, done.fs, named) && Stacked(done.pending, named)
  {
    var path := entry.operation.At();
    CloseForFramed(st, path, named);
    var closed := CloseFor(st, path);
    if closed.ok && (entry.operation.UpsertFile? <==> entry.file.Some?) {
      var settled := closed.value.(previous := Some(path));
      ExecuteFramed(settled, entry, named);
      FramedTransitive(st.fs, settled.fs, Execute(settled, entry).value.fs, named);
    }
  }

  function Named(entries: seq<Entry>): set<Path> {
    set e | e in entries :: e.operation.At()
  }

  lemma {:induction false} ApplyAllFramed(st: State, entries: seq<Entry>, named: set<Path>)
    requires Stacked(st.pending, named) && Named(entries) <= named
    ensures
      var done := ApplyAll(st, entries).value;
      Framed(st.fs, done.fs, named) && Stacked(done.pending, named)
    decreases |entries|
  {
    if entries != [] {
      assert entries[0].operation.At() in Named(entries);
      ApplyFramed(st, entries[0], named);
      var done := Apply(st, entries[0]);
      if done.ok {
        forall e | e in entries[1..] ensures e.operation.At() in Named(entries) {}
        ApplyAllFramed(done.value, entries[1..], named);
        FramedTransitive(st.fs, done.value.fs, ApplyAll(st, entries).value.fs, named);
      }
    }
  }

  /**
   * Every commit, whether or not it succeeds: the tree stays well formed, an entry named by no
   * operation is untouched up to its own modification time, and no entry with a reserved component, at
   * whatever depth, is touched even when an operation names it.
   */
  lemma CommitFrame(fs: Fs, entries: seq<Entry>)
    ensures
      var after := Run(fs, entries).value.fs.nodes;
      && (WellFormed(fs.nodes) ==> WellFormed(after))
      && (forall x :: x !in Named(entries) ==> Alike(after, fs.nodes, x))
      && forall x, i :: 0 <= i < |x| && Reserved(x[i]) ==> Alike(after, fs.nodes, x)
  {
    forall x, i | 0 <= i < |x| && Reserved(x[i]) ensures Protected(x) { ProtectedIff(x); }
    var named := Named(entries);
    ApplyAllFramed(Fresh(fs), entries, named);
    var done := ApplyAll(Fresh(fs), entries);
    if done.ok {
      FinishFramed(done.value, named);
      FramedTransitive(fs, done.value.fs, Run(fs, entries).value.fs, named);
    }
  }
}
