/** When each step of the committer succeeds, and what it leaves: conditions a caller can check before. */
module Effects {
  import opened Paths
  import opened Records
  import opened Timestamps
  import opened Tree
  import opened Commit

  /** The nanoseconds whose whole seconds fit an i64. */
  predicate Storable(ns: int) {
    -0x8000_0000_0000_0000 * 1_000_000_000 <= ns < 0x8000_0000_0000_0000 * 1_000_000_000
  }

  /** `rmdir` or `unlink`. */
  lemma UnlinkIff(fs: Fs, path: Path, directory: bool)
    requires path != [] && WellFormed(fs.nodes)
    ensures
      var done := Unlink(fs, path, directory);
      && (done.ok <==>
            && Contained(fs.nodes, path) && path in fs.nodes && fs.nodes[path].Dir? == directory
            && forall name :: path + [name] !in fs.nodes)
      && done.value == if done.ok then Remove(fs, path) else fs
  {
    ResolvesIff(fs.nodes, path);
    forall name | path + [name] in fs.nodes ensures IsDir(fs.nodes, path) && Ancestor(path, path + [name]) {
    }
    forall y | y in fs.nodes && Ancestor(path, y) && |y| == |path| + 1 ensures y == path + [y[|path|]] {
    }
  }

  /** A staged file lands with its content, its twelve mode bits and its exact time, or not at all. */
  lemma InstallIff(fs: Fs, file: Staged, path: Path, metadata: Metadata)
    requires path != []
    ensures
      var done := Install(fs, file, path, metadata);
      && (done.ok <==>
            && metadata.kind == FileKind && Storable(metadata.mtime)
            && Contained(fs.nodes, path) && !(path in fs.nodes && fs.nodes[path].Dir?))
      && (done.ok ==>
            && path in done.value.nodes && done.value.nodes[path].File?
            && done.value.nodes[path].content == file && done.value.nodes[path].mtime == metadata.mtime
            && LowBits(done.value.nodes[path].mode, metadata.mode))
      && (!done.ok ==> done.value == fs)
  {
    ResolvesIff(fs.nodes, path);
    SplitsAgree(metadata.mtime);
    ModeBits(metadata.mode);
    hide Resolves, Contained, LowBits;
  }

  /** The rename gives the file's directory the machine's next time and size, and the staging directory the one after. */
  lemma InstallDisturbs(fs: Fs, file: Staged, path: Path, metadata: Metadata, staging: Name)
    requires path != [] && Install(fs, file, path, metadata).ok && Spells(staging, ".quicsync")
    ensures
      var after := Install(fs, file, path, metadata).value;
      && after.clock == fs.clock && after.ticks == fs.ticks + 2
      && (IsDir(fs.nodes, Parent(path)) ==>
            after.nodes[Parent(path)] == Dir(fs.nodes[Parent(path)].mode, fs.clock(fs.ticks).0, fs.clock(fs.ticks).1))
      && (IsDir(fs.nodes, [staging]) ==>
            after.nodes[[staging]] == Dir(fs.nodes[[staging]].mode, fs.clock(fs.ticks + 1).0, fs.clock(fs.ticks + 1).1))
  {
    ReservedIff(staging);
    assert Spells(QUICSYNC, ".quicsync") && staging == QUICSYNC;
    var node := File(Permissions(metadata.mode), metadata.mtime, file);
    ParentDisturbed(fs, path, node);
    NotStaging(fs.nodes, path);
  }

  lemma NotStaging(nodes: Nodes, path: Path)
    requires Resolves(nodes, path)
    ensures path != [QUICSYNC] && Parent(path) != [QUICSYNC]
  {
    assert path[0] != QUICSYNC;
    assert Parent(path) != [] ==> Parent(path)[0] == path[0];
  }

  /** A link needs a target the kernel takes; one that cannot be stamped is there all the same. */
  lemma SymlinkIff(fs: Fs, record: Record)
    requires record.path != []
    ensures
      var path, done := record.path, Symlink(fs, record);
      var open := Contained(fs.nodes, path) && !(path in fs.nodes && fs.nodes[path].Dir?);
      var target := if record.target.Some? then record.target.value else [];
      && (done.ok <==> open && target != [] && 0 !in target && Storable(record.metadata.mtime))
      && (done.ok ==> path in done.value.nodes && done.value.nodes[path] == Link(target, record.metadata.mtime))
      && (!done.ok && open && record.target == Some([]) ==> path !in done.value.nodes)
      && (!done.ok && open && target != [] && 0 !in target ==>
            path in done.value.nodes && done.value.nodes[path] == Link(target, done.value.nodes[path].mtime))
  {
    ResolvesIff(fs.nodes, record.path);
    SplitsAgree(record.metadata.mtime);
    hide Resolves, Contained;
  }

  /** A directory is made or kept, writable for its owner, with the other mode bits it is to have. */
  lemma MakeDirectoryIff(fs: Fs, path: Path, mode: nat)
    requires path != []
    ensures
      var done := MakeDirectory(fs, path, mode);
      && (done.ok <==> Contained(fs.nodes, path) && (path in fs.nodes ==> fs.nodes[path].Dir?))
      && (done.ok ==>
            && path in done.value.nodes && done.value.nodes[path].Dir? && OwnerBitsSet(done.value.nodes[path].mode, mode)
            && (path in fs.nodes ==> done.value.nodes[path].mtime == fs.nodes[path].mtime
                                     && done.value.nodes[path].size == fs.nodes[path].size))
      && (!done.ok ==> done.value == fs)
  {
    ResolvesIff(fs.nodes, path);
    ModeBits(mode);
    hide Resolves, Contained, OwnerBitsSet;
  }

  /** The mode is set before the time, so a time out of range leaves the mode changed. */
  lemma SetDirectoryIff(fs: Fs, path: Path, metadata: Metadata)
    requires path != []
    ensures
      var done := SetDirectory(fs, path, metadata);
      var there := Contained(fs.nodes, path) && path in fs.nodes && fs.nodes[path].Dir?;
      && (done.ok <==> there && Storable(metadata.mtime))
      && (there ==>
            && path in done.value.nodes && done.value.nodes[path].Dir?
            && LowBits(done.value.nodes[path].mode, metadata.mode)
            && done.value.nodes[path].size == fs.nodes[path].size
            && done.value.nodes[path].mtime == if done.ok then metadata.mtime else fs.nodes[path].mtime)
      && (!there ==> done.value == fs)
  {
    ResolvesIff(fs.nodes, path);
    SplitsAgree(metadata.mtime);
    ModeBits(metadata.mode);
    hide Resolves, Contained, LowBits;
  }

  /** An operation before the previous one in byte order, or with a file it should not have, is refused untouched. */
  lemma ApplyRefuses(st: State, entry: Entry)
    requires
      || (st.previous.Some? && ComponentsBelow(entry.operation.At(), st.previous.value))
      || entry.operation.UpsertFile? != entry.file.Some?
    ensures Apply(st, entry) == Outcome(st, false)
  {
    if st.previous.Some? { LessIff(entry.operation.At(), st.previous.value); }
  }
}
