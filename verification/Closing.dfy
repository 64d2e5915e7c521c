/** Finishing an open directory: its removal finds it empty, its metadata is final. */
module Closing {
  import opened Paths
  import opened Tree
  import opened Commit
  import opened Reconciliation
  import opened Steps

  /** Every planned path beneath the innermost directory has been dealt with. */
  ghost predicate Left(pending: seq<Directory>, todo: set<Path>) {
    pending != [] && forall r :: r in todo ==> !Ancestor(Top(pending).path, r)
  }

  /** No other open directory is the innermost one, or beneath it. */
  lemma OthersAbove(p: Problem, pending: seq<Directory>, todo: set<Path>, y: Path)
    requires ChainOk(p, pending, todo) && pending != [] && y in Open(Below(pending))
    ensures Ancestor(y, Top(pending).path)
  {
  }

  /** Once its managed descendants are gone, nothing is left in a directory that has to go. */
  lemma NothingBelow(p: Problem, st: State, todo: set<Path>, y: Path)
    requires Valid(p) && Clear(p) && Inv(p, st, todo) && Left(st.pending, todo)
    requires GoneDir(p, Top(st.pending).path) && Ancestor(Top(st.pending).path, y)
    ensures y !in st.fs.nodes
  {
    OpenTop(st.pending);
    assert NodeOk(p, st.fs.nodes, Open(st.pending), todo, y);
    assert y !in Open(st.pending) by {
      if y in Open(Below(st.pending)) { OthersAbove(p, st.pending, todo, y); }
    }
    assert !Obstructs(p, Top(st.pending).path, y);
  }

  lemma ResolvesAfter(n: Nodes, n': Nodes, q: Path)
    requires Resolves(n, q) && Local(n, n', q)
    ensures Resolves(n', q)
  {
    forall a | Ancestor(a, q) ensures IsDir(n', a) {
      assert Alike(n', n, a);
    }
  }

  lemma PerformOne(fs: Fs, path: Path, action: Action)
    ensures PerformAll(fs, path, [action]) == Perform(fs, path, action)
  {
  }

  lemma PerformTwo(fs: Fs, path: Path, first: Action, second: Action)
    ensures
      var done := Perform(fs, path, first);
      PerformAll(fs, path, [first, second]) == (if done.ok then Perform(done.value, path, second) else done)
  {
    var done := Perform(fs, path, first);
    assert [first, second][1..] == [second];
    PerformOne(done.value, path, second);
  }

  /** Removing a replaced directory and installing what takes its place. */
  lemma ReplaceDirectory(p: Problem, fs: Fs, t: Path)
    requires Valid(p) && GoneDir(p, t)
    requires Resolves(fs.nodes, t) && IsDir(fs.nodes, t) && Empty(fs.nodes, t)
    ensures
      var done := PerformAll(fs, t, Expected(p, t));
      done.ok && Local(fs.nodes, done.value.nodes, t) && Settled(p, done.value.nodes, t)
  {
    var removed := Remove(fs, t);
    assert Unlink(fs, t, true) == Outcome(removed, true);
    RemoveLocal(fs, t);
    ResolvesAfter(fs.nodes, removed.nodes, t);
    if t in p.source {
      var node, record := p.source[t], Wanted(p, t).value;
      if node.File? {
        PerformTwo(fs, t, RemoveDirectory, InstallFile(node.content, record.metadata));
        InstallLands(removed, t, node, record);
        LocalTransitive(fs.nodes, removed.nodes, Install(removed, node.content, t, record.metadata).value.nodes, t);
      } else {
        PerformTwo(fs, t, RemoveDirectory, MakeSymlink(record));
        SymlinkLands(removed, t, node, record);
        LocalTransitive(fs.nodes, removed.nodes, Symlink(removed, record).value.nodes, t);
      }
    } else {
      PerformOne(fs, t, RemoveDirectory);
    }
  }

  /** The deferred actions of the innermost directory all succeed and settle it. */
  lemma DeferredSucceeds(p: Problem, st: State, todo: set<Path>)
    requires Valid(p) && Clear(p) && Inv(p, st, todo) && Left(st.pending, todo)
    ensures
      var t := Top(st.pending).path;
      var done := PerformAll(st.fs, t, Top(st.pending).actions);
      done.ok && Local(st.fs.nodes, done.value.nodes, t) && Settled(p, done.value.nodes, t)
  {
    var t := Top(st.pending).path;
    var n := st.fs.nodes;
    OpenTop(st.pending);
    assert NodeOk(p, n, Open(st.pending), todo, t);
    forall r | r in todo ensures !Less(r, t) {
      var last := st.previous.value;
      if t != last { AncestorFirst(t, last); Transitive(t, last, r); }
      Total(t, r);
    }
    Reachable(p, n, Open(st.pending), todo, t);
    if MadeDir(p, t) {
      PerformOne(st.fs, t, SetMetadata(Wanted(p, t).value.metadata));
      SetDirectoryLands(st.fs, t, p.source[t], Wanted(p, t).value.metadata);
    } else {
      forall y | y in n && Ancestor(t, y) ensures false {
        NothingBelow(p, st, todo, y);
      }
      ReplaceDirectory(p, st.fs, t);
    }
  }

  /** A popped directory is settled and nothing still to come lies beneath it. */
  lemma Popped(p: Problem, st: State, todo: set<Path>, n': Nodes)
    requires Valid(p) && Inv(p, st, todo) && Left(st.pending, todo)
    requires Local(st.fs.nodes, n', Top(st.pending).path) && Settled(p, n', Top(st.pending).path)
    ensures NodesOk(p, n', Open(Below(st.pending)), todo)
    ensures FinalOk(p, Open(Below(st.pending)), todo)
  {
    var t, open, open' := Top(st.pending).path, Open(st.pending), Open(Below(st.pending));
    OpenTop(st.pending);
    forall y | y in open' ensures Ancestor(y, t) {
      OthersAbove(p, st.pending, todo, y);
    }
    forall y ensures NodeOk(p, n', open', todo, y) {
      assert NodeOk(p, st.fs.nodes, open, todo, y);
      if y != t { Elsewhere(p, st.fs.nodes, n', open, todo, t, y); }
    }
  }

  /** `finish_directory` on a directory the plan has left. */
  lemma FinishSucceeds(p: Problem, st: State, todo: set<Path>)
    requires Valid(p) && Clear(p) && Inv(p, st, todo) && Left(st.pending, todo)
    ensures FinishDirectory(st).ok && Inv(p, FinishDirectory(st).value, todo)
  {
    hide Clear, Valid, NodesOk, FinalOk, PerformAll;
    DeferredSucceeds(p, st, todo);
    var done := FinishDirectory(st).value;
    Popped(p, st, todo, done.fs.nodes);
    if done.pending != [] {
      OpenTop(done.pending);
      OthersAbove(p, st.pending, todo, Top(done.pending).path);
      if Top(st.pending).path != st.previous.value {
        AncestorTransitive(Top(done.pending).path, Top(st.pending).path, st.previous.value);
      }
    }
  }

  /** Moving on to `q` finishes exactly the directories `q` is not in, and all of them succeed. */
  lemma {:induction false} CloseSucceeds(p: Problem, st: State, todo: set<Path>, q: Path)
    requires Valid(p) && Clear(p) && Inv(p, st, todo) && Least(q, todo)
    ensures
      var done := CloseFor(st, q);
      && done.ok && Inv(p, done.value, todo)
      && (done.value.pending == [] || AtOrAbove(Top(done.value.pending).path, q))
      && done.value.previous == st.previous
    decreases |st.pending|
  {
    if st.pending != [] && !AtOrAbove(Top(st.pending).path, q) {
      var t, last := Top(st.pending).path, st.previous.value;
      if t != last { AncestorFirst(t, last); Transitive(t, last, q); }
      forall r | r in todo ensures !Ancestor(t, r) {
        if Ancestor(t, r) { Contiguous(t, q, r); }
      }
      FinishSucceeds(p, st, todo);
      CloseSucceeds(p, FinishDirectory(st).value, todo, q);
    }
  }

  /** With nothing left to plan, every open directory finishes. */
  lemma {:induction false} FinishAllSucceeds(p: Problem, st: State)
    requires Valid(p) && Clear(p) && Inv(p, st, {})
    ensures Finish(st).ok && Finish(st).value.pending == [] && Inv(p, Finish(st).value, {})
    decreases |st.pending|
  {
    if st.pending != [] {
      FinishSucceeds(p, st, {});
      FinishAllSucceeds(p, FinishDirectory(st).value);
    }
  }
}
