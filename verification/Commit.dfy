/**
 * What a commit does to the live tree, as functions of the tree: the confined filesystem steps,
 * the stack of deferred directory actions, and a whole run. A step that fails may leave part of
 * its effect behind, so every outcome carries the tree it leaves.
 */
module Commit {
  import opened Paths
  import opened Records
  import opened Timestamps
  import opened Tree

  /** A completely received file; only its bytes matter until it is installed. */
  type Staged = seq<byte>

  datatype Action =
    | RemoveDirectory
    | SetMetadata(metadata: Metadata)
    | InstallFile(file: Staged, metadata: Metadata)
    | MakeSymlink(record: Record)

  datatype Directory = Directory(path: Path, actions: seq<Action>)

  datatype State = State(fs: Fs, pending: seq<Directory>, previous: Option<Path>)

  datatype Entry = Entry(operation: Operation, file: Option<Staged>)

  datatype Outcome<+T> = Outcome(value: T, ok: bool)

  /** `unlinkat` through the confined parent, with or without AT_REMOVEDIR. */
  ghost function Unlink(fs: Fs, path: Path, directory: bool): Outcome<Fs> {
    if Resolves(fs.nodes, path) && path in fs.nodes && fs.nodes[path].Dir? == directory
       && (directory ==> Empty(fs.nodes, path)) then
      Outcome(Remove(fs, path), true)
    else
      Outcome(fs, false)
  }

  /** `StagedFile::install`: metadata on the temporary, then a rename out of the staging directory. */
  ghost function Install(fs: Fs, file: Staged, path: Path, metadata: Metadata): Outcome<Fs> {
    if metadata.kind == FileKind && TimeFits(metadata.mtime)
       && Resolves(fs.nodes, path) && !IsDir(fs.nodes, path) then
      var node := File(Permissions(metadata.mode), metadata.mtime, file);
      Outcome(Touch(Put(fs, path, node), [QUICSYNC]), true)
    else
      Outcome(fs, false)
  }

  /** A target `symlinkat` can take. */
  predicate Linkable(target: Option<seq<byte>>) {
    target.Some? && 0 !in target.value
  }

  /** `Committer::symlink`: drop what is there, link, then stamp the link itself. */
  ghost function Symlink(fs: Fs, record: Record): Outcome<Fs> {
    var path := record.path;
    if !Linkable(record.target) || !Resolves(fs.nodes, path) || IsDir(fs.nodes, path) then
      Outcome(fs, false)
    else
      var cleared := if path in fs.nodes then Remove(fs, path) else fs;
      if record.target.value == [] then Outcome(cleared, false)
      else
        var linked := Put(cleared, path, Link(record.target.value, fs.clock(fs.ticks).0));
        if TimeFits(record.metadata.mtime) then
          Outcome(Amend(linked, path, Link(record.target.value, record.metadata.mtime)), true)
        else
          Outcome(linked, false)
  }

  /** `mkdirat` unless present, then open it as a real directory and keep it writable. */
  ghost function MakeDirectory(fs: Fs, path: Path, mode: nat): Outcome<Fs> {
    if !Resolves(fs.nodes, path) then Outcome(fs, false)
    else
      var (mtime, size) := fs.clock(fs.ticks);
      var made := if path in fs.nodes then fs else Put(fs, path, Dir(0x1c0, mtime, size));
      if made.nodes[path].Dir? then
        var was := made.nodes[path];
        Outcome(Amend(made, path, Dir(Permissions(WithOwnerAccess(mode)), was.mtime, was.size)), true)
      else
        Outcome(made, false)
  }

  /** The deferred chmod and utimes of an upserted directory. */
  ghost function SetDirectory(fs: Fs, path: Path, metadata: Metadata): Outcome<Fs> {
    if !Resolves(fs.nodes, path) || !IsDir(fs.nodes, path) then Outcome(fs, false)
    else
      var was := fs.nodes[path];
      if TimeFits(metadata.mtime) then
        Outcome(Amend(fs, path, Dir(Permissions(metadata.mode), metadata.mtime, was.size)), true)
      else
        Outcome(Amend(fs, path, Dir(Permissions(metadata.mode), was.mtime, was.size)), false)
  }

  ghost function Perform(fs: Fs, path: Path, action: Action): Outcome<Fs> {
    match action
    case RemoveDirectory => Unlink(fs, path, true)
    case SetMetadata(metadata) => SetDirectory(fs, path, metadata)
    case InstallFile(file, metadata) => Install(fs, file, path, metadata)
    case MakeSymlink(record) => Symlink(fs, record)
  }

  ghost function PerformAll(fs: Fs, path: Path, actions: seq<Action>): Outcome<Fs>
    decreases |actions|
  {
    if actions == [] then Outcome(fs, true)
    else
      var first := Perform(fs, path, actions[0]);
      if first.ok then PerformAll(first.value, path, actions[1..]) else first
  }

  function Top(pending: seq<Directory>): Directory
    requires pending != []
  {
    pending[|pending| - 1]
  }

  function Below(pending: seq<Directory>): seq<Directory>
    requires pending != []
  {
    pending[..|pending| - 1]
  }

  /** `finish_directory`: pop the innermost directory and run what was deferred for it. */
  ghost function FinishDirectory(st: State): Outcome<State>
    requires st.pending != []
  {
    var directory := Top(st.pending);
    var done := PerformAll(st.fs, directory.path, directory.actions);
    Outcome(st.(fs := done.value, pending := Below(st.pending)), done.ok)
  }

  /** Finish every open directory that `path` has left. */
  ghost function CloseFor(st: State, path: Path): Outcome<State>
    decreases |st.pending|
  {
    if st.pending == [] || AtOrAbove(Top(st.pending).path, path) then Outcome(st, true)
    else
      var done := FinishDirectory(st);
      if done.ok then CloseFor(done.value, path) else done
  }

  /** Whether the innermost open directory is this path and is going to be removed. */
  predicate Replacing(pending: seq<Directory>, path: Path) {
    && pending != [] && Top(pending).path == path
    && RemoveDirectory in Top(pending).actions
  }

  function Defer(pending: seq<Directory>, path: Path, action: Action): seq<Directory> {
    if pending != [] && Top(pending).path == path then
      Below(pending) + [Directory(path, Top(pending).actions + [action])]
    else
      pending + [Directory(path, [action])]
  }

  ghost function WithFs(st: State, done: Outcome<Fs>): Outcome<State> {
    Outcome(st.(fs := done.value), done.ok)
  }

  /** The operation itself, once the stack is settled and the order is checked. */
  ghost function Execute(st: State, entry: Entry): Outcome<State>
    requires entry.operation.UpsertFile? <==> entry.file.Some?
  {
    match entry.operation
    case Delete(_, path, kind) =>
      if kind.DirectoryKind? then
        Outcome(st.(pending := Defer(st.pending, path, RemoveDirectory)), true)
      else
        WithFs(st, Unlink(st.fs, path, false))
    case UpsertDirectory(_, record) =>
      var made := MakeDirectory(st.fs, record.path, record.metadata.mode);
      if made.ok then
        Outcome(st.(fs := made.value, pending := Defer(st.pending, record.path, SetMetadata(record.metadata))), true)
      else
        WithFs(st, made)
    case UpsertFile(_, record, _) =>
      if Replacing(st.pending, record.path) then
        Outcome(st.(pending := Defer(st.pending, record.path, InstallFile(entry.file.value, record.metadata))), true)
      else
        WithFs(st, Install(st.fs, entry.file.value, record.path, record.metadata))
    case UpsertSymlink(_, record) =>
      if Replacing(st.pending, record.path) then
        Outcome(st.(pending := Defer(st.pending, record.path, MakeSymlink(record))), true)
      else
        WithFs(st, Symlink(st.fs, record))
  }

  /** `Committer::apply` */
  ghost function Apply(st: State, entry: Entry): Outcome<State> {
    var path := entry.operation.At();
    if (st.previous.Some? && Less(path, st.previous.value))
       || entry.operation.UpsertFile? != entry.file.Some? then
      Outcome(st, false)
    else
      var closed := CloseFor(st, path);
      if closed.ok then Execute(closed.value.(previous := Some(path)), entry) else closed
  }

  /** `Committer::finish` */
  ghost function Finish(st: State): Outcome<State>
    decreases |st.pending|
  {
    if st.pending == [] then Outcome(st, true)
    else
      var done := FinishDirectory(st);
      if done.ok then Finish(done.value) else done
  }

  ghost function ApplyAll(st: State, entries: seq<Entry>): Outcome<State>
    decreases |entries|
  {
    if entries == [] then Outcome(st, true)
    else
      var done := Apply(st, entries[0]);
      if done.ok then ApplyAll(done.value, entries[1..]) else done
  }

  function Fresh(fs: Fs): State {
    State(fs, [], None)
  }

  /** The whole commit of an ordered list of staged changes. */
  ghost function Run(fs: Fs, entries: seq<Entry>): Outcome<State> {
    var done := ApplyAll(Fresh(fs), entries);
    if done.ok then Finish(done.value) else done
  }

  lemma {:induction false} ApplyAllAppend(st: State, before: seq<Entry>, after: seq<Entry>)
    ensures
      var first := ApplyAll(st, before);
      ApplyAll(st, before + after) == (if first.ok then ApplyAll(first.value, after) else first)
    decreases |before|
  {
    if before == [] {
      assert before + after == after;
    } else {
      assert (before + after)[1..] == before[1..] + after;
      var done := Apply(st, before[0]);
      if done.ok {
        ApplyAllAppend(done.value, before[1..], after);
      }
    }
  }
}
