/** Each step of a planned commit succeeds and keeps the invariant. */
module Steps {
  import opened Paths
  import opened Records
  import opened Tree
  import opened Commit
  import opened Frame
  import opened Reconciliation

  lemma OpenTop(pending: seq<Directory>)
    requires pending != []
    ensures Top(pending) in pending && Top(pending).path in Open(pending)
    ensures Open(pending) == Open(Below(pending)) + {Top(pending).path}
  {
  }

  lemma OpenMember(pending: seq<Directory>, x: Path)
    requires x in Open(pending)
    ensures exists i :: 0 <= i < |pending| && pending[i].path == x
  {
  }

  /** A directory of the source stands as a directory once its turn has passed. */
  lemma SourceDirStands(p: Problem, n: Nodes, open: set<Path>, todo: set<Path>, a: Path)
    requires NodeOk(p, n, open, todo, a) && a !in todo && IsDir(p.source, a)
    ensures IsDir(n, a)
  {
  }

  /** A directory of the initial tree above a path still in play stands. */
  lemma InitDirStands(p: Problem, n: Nodes, open: set<Path>, todo: set<Path>, a: Path, q: Path)
    requires Valid(p) && Clear(p) && NodeOk(p, n, open, todo, a) && FinalOk(p, open, todo)
    requires a !in todo && IsDir(p.init, a) && Ancestor(a, q) && (q in todo || q in open)
    ensures IsDir(n, a)
  {
    assert !Collides(p, a);
  }

  /** Whatever is next, or waits on the stack, is reached through real directories. */
  lemma Reachable(p: Problem, n: Nodes, open: set<Path>, todo: set<Path>, q: Path)
    requires Valid(p) && Clear(p) && NodesOk(p, n, open, todo) && FinalOk(p, open, todo)
    requires Involved(p, q) && (q in todo || q in open)
    requires forall r :: r in todo ==> !Less(r, q)
    ensures Resolves(n, q)
  {
    assert q != [] && !Protected(q);
    forall a | Ancestor(a, q) ensures IsDir(n, a) {
      AncestorFirst(a, q);
      assert NodeOk(p, n, open, todo, a);
      if q in p.source {
        SourceDirStands(p, n, open, todo, a);
      } else {
        InitDirStands(p, n, open, todo, a, q);
      }
    }
  }

  /** A step at `q` disturbs its parent and the staging directory, and no settled path. */
  ghost predicate Local(n: Nodes, n': Nodes, q: Path) {
    && q != []
    && (forall y :: y != q ==> Alike(n', n, y))
    && (forall y :: y != q && y != Parent(q) && y != [QUICSYNC] ==> Identical(n', n, y))
  }

  lemma StagingProtected()
    ensures Protected([QUICSYNC])
  {
    assert [QUICSYNC][0] == QUICSYNC;
  }

  lemma SettledElsewhere(p: Problem, n: Nodes, n': Nodes, open: set<Path>, todo: set<Path>, q: Path, y: Path)
    requires Valid(p) && Local(n, n', q) && y != q && Settled(p, n, y) && FinalOk(p, open, todo)
    requires Involved(p, y) && y !in todo && y !in open && (q in todo || q in open)
    ensures Settled(p, n', y)
  {
    assert Alike(n', n, y);
    StagingProtected();
    if y in p.source && Changed(p, y) && p.source[y].Dir? {
      assert Deferred(p, y) && y != [];
      assert y == Parent(q) ==> Ancestor(y, q);
      assert Identical(n', n, y);
    }
  }

  lemma Elsewhere(p: Problem, n: Nodes, n': Nodes, open: set<Path>, todo: set<Path>, q: Path, y: Path)
    requires Valid(p) && Local(n, n', q) && y != q && NodeOk(p, n, open, todo, y) && FinalOk(p, open, todo)
    requires q in todo || q in open
    ensures NodeOk(p, n', open, todo, y)
  {
    assert Alike(n', n, y);
    if y in todo || !Involved(p, y) {
      AlikeTransitive(n', n, p.init, y);
    } else if y !in open {
      SettledElsewhere(p, n, n', open, todo, q, y);
    }
  }

  lemma LocalTransitive(a: Nodes, b: Nodes, c: Nodes, q: Path)
    requires Local(a, b, q) && Local(b, c, q)
    ensures Local(a, c, q)
  {
    forall y | y != q ensures Alike(c, a, y) {
      AlikeTransitive(c, b, a, y);
    }
    forall y | y != q && y != Parent(q) && y != [QUICSYNC] ensures Identical(c, a, y) {
      assert Identical(c, b, y) && Identical(b, a, y);
    }
  }

  lemma PutLocal(fs: Fs, q: Path, node: Node)
    requires q != []
    ensures Local(fs.nodes, Put(fs, q, node).nodes, q)
  {
  }

  lemma RemoveLocal(fs: Fs, q: Path)
    requires q != []
    ensures Local(fs.nodes, Remove(fs, q).nodes, q)
  {
  }

  lemma AmendLocal(fs: Fs, q: Path, node: Node)
    requires q != []
    ensures Local(fs.nodes, Amend(fs, q, node).nodes, q)
  {
  }

  /** A staged file lands exactly as the source has it. */
  lemma InstallLands(fs: Fs, q: Path, node: Node, record: Record)
    requires node.File? && Portable(node) && Resolves(fs.nodes, q) && !IsDir(fs.nodes, q)
    requires record.metadata == Metadata(FileKind, node.mode, node.mtime, |node.content|)
    ensures
      var done := Install(fs, node.content, q, record.metadata);
      done.ok && q in done.value.nodes && done.value.nodes[q] == node && Local(fs.nodes, done.value.nodes, q)
  {
    var put := Put(fs, q, node);
    var done := Install(fs, node.content, q, record.metadata).value;
    assert Permissions(node.mode) == node.mode;
    StagingProtected();
    forall y | y != q ensures Alike(done.nodes, fs.nodes, y) {
      AlikeTransitive(done.nodes, put.nodes, fs.nodes, y);
    }
    forall y | y != q && y != Parent(q) && y != [QUICSYNC] ensures Identical(done.nodes, fs.nodes, y) {
      assert Identical(done.nodes, put.nodes, y) && Identical(put.nodes, fs.nodes, y);
    }
  }

  /** A link lands exactly as the source has it. */
  lemma SymlinkLands(fs: Fs, q: Path, node: Node, record: Record)
    requires node.Link? && Portable(node) && Resolves(fs.nodes, q) && !IsDir(fs.nodes, q)
    requires record.path == q && record.target == Some(node.target) && record.metadata.mtime == node.mtime
    ensures
      var done := Symlink(fs, record);
      done.ok && q in done.value.nodes && done.value.nodes[q] == node && Local(fs.nodes, done.value.nodes, q)
  {
    var cleared := if q in fs.nodes then Remove(fs, q) else fs;
    var unstamped := Link(node.target, fs.clock(fs.ticks).0);
    var linked := Put(cleared, q, unstamped);
    RemoveLocal(fs, q);
    PutLocal(cleared, q, unstamped);
    AmendLocal(linked, q, node);
    LocalTransitive(cleared.nodes, linked.nodes, Amend(linked, q, node).nodes, q);
    if q in fs.nodes {
      LocalTransitive(fs.nodes, cleared.nodes, Amend(linked, q, node).nodes, q);
    }
  }

  lemma MakeDirectoryLands(fs: Fs, q: Path, mode: nat)
    requires Resolves(fs.nodes, q) && (q in fs.nodes ==> fs.nodes[q].Dir?)
    ensures
      var done := MakeDirectory(fs, q, mode);
      done.ok && IsDir(done.value.nodes, q) && Local(fs.nodes, done.value.nodes, q)
  {
    var (mtime, size) := fs.clock(fs.ticks);
    var made := if q in fs.nodes then fs else Put(fs, q, Dir(0x1c0, mtime, size));
    if q !in fs.nodes { PutLocal(fs, q, Dir(0x1c0, mtime, size)); }
    var node := Dir(Permissions(WithOwnerAccess(mode)), made.nodes[q].mtime, made.nodes[q].size);
    AmendLocal(made, q, node);
    if q !in fs.nodes {
      LocalTransitive(fs.nodes, made.nodes, Amend(made, q, node).nodes, q);
    }
  }

  lemma SetDirectoryLands(fs: Fs, q: Path, node: Node, metadata: Metadata)
    requires node.Dir? && Portable(node) && Resolves(fs.nodes, q) && IsDir(fs.nodes, q)
    requires metadata.mode == node.mode && metadata.mtime == node.mtime
    ensures
      var done := SetDirectory(fs, q, metadata);
      && done.ok && q in done.value.nodes && SameButSize(done.value.nodes[q], node)
      && Local(fs.nodes, done.value.nodes, q)
  {
  }
}
