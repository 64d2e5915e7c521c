/** The committer itself: it changes the live tree, its stack and its position step by step. */
module CommitterModel {
  import opened Paths
  import opened Records
  import opened Timestamps
  import opened Tree
  import opened Commit

  class Committer {
    var fs: Fs
    var pending: seq<Directory>
    var previous: Option<Path>

    ghost function View(): State
      reads this
    {
      State(fs, pending, previous)
    }

    constructor (root: Fs)
      ensures View() == Fresh(root)
    {
      fs, pending, previous := root, [], None;
    }

    /** `resolve_parent`: refuse protected components, then open one real directory after another. */
    method ResolveParent(path: Path) returns (ok: bool)
      requires path != []
      ensures ok <==> Resolves(fs.nodes, path)
      ensures ok <==> Contained(fs.nodes, path)
    {
      ResolvesIff(fs.nodes, path);
      hide Resolves, Reserved;
      for i := 0 to |path|
        invariant forall k :: 0 <= k < i ==> !Reserved(path[k])
      {
        ReservedIff(path[i]);
        if path[i] == QUICSYNC || path[i] == GIT { return false; }
      }
      for i := 1 to |path|
        invariant forall k :: 0 < k < i ==> path[..k] in fs.nodes && fs.nodes[path[..k]].Dir?
      {
        if !IsDir(fs.nodes, path[..i]) { return false; }
      }
      return true;
    }

    method UnlinkAt(path: Path, directory: bool) returns (ok: bool)
      requires path != []
      modifies this`fs
      ensures Outcome(fs, ok) == Unlink(old(fs), path, directory)
    {
      ok := ResolveParent(path);
      if !ok { return; }
      if path !in fs.nodes || fs.nodes[path].Dir? != directory { return false; }
      if directory && exists y :: y in fs.nodes && Ancestor(path, y) && |y| == |path| + 1 { return false; }
      fs := Remove(fs, path);
    }

    /** `StagedFile::install` with `set_file_metadata`. */
    method InstallAt(file: Staged, path: Path, metadata: Metadata) returns (ok: bool)
      requires path != []
      modifies this`fs
      ensures Outcome(fs, ok) == Install(old(fs), file, path, metadata)
    {
      SplitsAgree(metadata.mtime);
      if metadata.kind != FileKind { return false; }
      var time := SignedSplit(metadata.mtime);
      if time.None? { return false; }
      ok := ResolveParent(path);
      if !ok { return; }
      if IsDir(fs.nodes, path) { return false; }
      fs := Put(fs, path, File(Permissions(metadata.mode), Rescan(time.value), file));
      fs := Touch(fs, [QUICSYNC]);
    }

    method SymlinkAt(record: Record) returns (ok: bool)
      requires record.path != []
      modifies this`fs
      ensures Outcome(fs, ok) == Symlink(old(fs), record)
    {
      SplitsAgree(record.metadata.mtime);
      var path := record.path;
      if !Linkable(record.target) { return false; }
      ok := ResolveParent(path);
      if !ok { return; }
      if IsDir(fs.nodes, path) { return false; }
      var now := fs.clock(fs.ticks).0;
      if path in fs.nodes { fs := Remove(fs, path); }
      if record.target.value == [] { return false; }
      fs := Put(fs, path, Link(record.target.value, now));
      var time := EuclideanSplit(record.metadata.mtime);
      if time.None? { return false; }
      fs := Amend(fs, path, Link(record.target.value, Rescan(time.value)));
    }

    method MakeDirectoryAt(path: Path, mode: nat) returns (ok: bool)
      requires path != []
      modifies this`fs
      ensures Outcome(fs, ok) == MakeDirectory(old(fs), path, mode)
    {
      ok := ResolveParent(path);
      if !ok { return; }
      if path !in fs.nodes {
        var (mtime, size) := fs.clock(fs.ticks);
        fs := Put(fs, path, Dir(0x1c0, mtime, size));
      }
      var node := fs.nodes[path];
      if !node.Dir? { return false; }
      fs := Amend(fs, path, Dir(Permissions(WithOwnerAccess(mode)), node.mtime, node.size));
    }

    method SetDirectoryAt(path: Path, metadata: Metadata) returns (ok: bool)
      requires path != []
      modifies this`fs
      ensures Outcome(fs, ok) == SetDirectory(old(fs), path, metadata)
    {
      SplitsAgree(metadata.mtime);
      ok := ResolveParent(path);
      if !ok { return; }
      if !IsDir(fs.nodes, path) { return false; }
      var node := fs.nodes[path];
      fs := Amend(fs, path, Dir(Permissions(metadata.mode), node.mtime, node.size));
      var time := SignedSplit(metadata.mtime);
      if time.None? { return false; }
      fs := Amend(fs, path, Dir(Permissions(metadata.mode), Rescan(time.value), node.size));
      assert fs.nodes == old(fs).nodes[path := fs.nodes[path]];
    }

    method PerformAt(path: Path, action: Action) returns (ok: bool)
      requires path != [] && (action.MakeSymlink? ==> action.record.path != [])
      modifies this`fs
      ensures Outcome(fs, ok) == Perform(old(fs), path, action)
    {
      match action
      case RemoveDirectory => ok := UnlinkAt(path, true);
      case SetMetadata(metadata) => ok := SetDirectoryAt(path, metadata);
      case InstallFile(file, metadata) => ok := InstallAt(file, path, metadata);
      case MakeSymlink(record) => ok := SymlinkAt(record);
    }

    /** Paths are never empty: `RelativePath` has at least one component. */
    ghost predicate Rooted()
      reads this
    {
      forall d :: d in pending ==> RootedDirectory(d)
    }

    method FinishDirectoryAt() returns (ok: bool)
      requires pending != [] && Rooted()
      modifies this`fs, this`pending
      ensures Outcome(View(), ok) == FinishDirectory(old(View()))
      ensures Rooted() && |pending| < |old(pending)|
    {
      ghost var start := fs;
      var directory := Top(pending);
      assert RootedDirectory(directory);
      pending := Below(pending);
      ok := true;
      var i := 0;
      assert directory.actions[0..] == directory.actions;
      while i < |directory.actions| && ok
        invariant 0 <= i <= |directory.actions| && pending == Below(old(pending))
        invariant if ok
                  then PerformAll(start, directory.path, directory.actions)
                       == PerformAll(fs, directory.path, directory.actions[i..])
                  else PerformAll(start, directory.path, directory.actions) == Outcome(fs, false)
      {
        assert directory.actions[i..][1..] == directory.actions[i + 1..];
        ok := PerformAt(directory.path, directory.actions[i]);
        i := i + 1;
      }
      assert ok ==> directory.actions[i..] == [];
    }

    method DeferAt(path: Path, action: Action)
      requires Rooted() && path != [] && (action.MakeSymlink? ==> action.record.path != [])
      modifies this`pending
      ensures pending == Defer(old(pending), path, action) && Rooted()
    {
      if pending != [] && Top(pending).path == path {
        assert RootedDirectory(Top(pending));
        pending := pending[|pending| - 1 := Directory(path, Top(pending).actions + [action])];
      } else {
        pending := pending + [Directory(path, [action])];
      }
    }

    /** `Committer::apply` does exactly what the commit's step function says. */
    method ApplyNext(entry: Entry) returns (ok: bool)
      requires Rooted() && entry.operation.At() != []
      modifies this
      ensures Outcome(View(), ok) == Apply(old(View()), entry)
      ensures Rooted()
    {
      var path := entry.operation.At();
      if previous.Some? && Less(path, previous.value) { return false; }
      if entry.operation.UpsertFile? != entry.file.Some? { return false; }
      ghost var start := View();
      while pending != [] && !AtOrAbove(Top(pending).path, path)
        invariant Rooted() && CloseFor(start, path) == CloseFor(View(), path)
        decreases |pending|
      {
        ok := FinishDirectoryAt();
        if !ok { return; }
      }
      previous := Some(path);
      ok := ExecuteAt(entry);
    }

    method ExecuteAt(entry: Entry) returns (ok: bool)
      requires Rooted() && entry.operation.At() != [] && (entry.operation.UpsertFile? <==> entry.file.Some?)
      modifies this`fs, this`pending
      ensures Outcome(View(), ok) == Execute(old(View()), entry)
      ensures Rooted()
    {
      ok := true;
      match entry.operation
      case Delete(_, path, kind) =>
        if kind.DirectoryKind? { DeferAt(path, RemoveDirectory); } else { ok := UnlinkAt(path, false); }
      case UpsertDirectory(_, record) =>
        ok := MakeDirectoryAt(record.path, record.metadata.mode);
        if ok { DeferAt(record.path, SetMetadata(record.metadata)); }
      case UpsertFile(_, record, _) =>
        if Replacing(pending, record.path) {
          DeferAt(record.path, InstallFile(entry.file.value, record.metadata));
        } else {
          ok := InstallAt(entry.file.value, record.path, record.metadata);
        }
      case UpsertSymlink(_, record) =>
        if Replacing(pending, record.path) {
          DeferAt(record.path, MakeSymlink(record));
        } else {
          ok := SymlinkAt(record);
        }
    }

    /** `Committer::finish` */
    method FinishAll() returns (ok: bool)
      requires Rooted()
      modifies this`fs, this`pending
      ensures Outcome(View(), ok) == Finish(old(View()))
    {
      ghost var start := View();
      while pending != []
        invariant Rooted() && Finish(start) == Finish(View())
        decreases |pending|
      {
        ok := FinishDirectoryAt();
        if !ok { return; }
      }
      return true;
    }
  }

  predicate RootedDirectory(d: Directory) {
    d.path != [] && forall a :: a in d.actions ==> a.MakeSymlink? ==> a.record.path != []
  }
}
